/**
  Classes: a class copies the fields of its superclass into its own table, so that a field
  is found without looking further. Looking there gives the nearest definition along the
  chain of superclasses as long as a class is complete when it is inherited from.

  The tables are maps here; HashMap.dfy proves that the hash map refines them.
 */
module Classes {
  import opened Wrappers

  datatype Value = Plain(bits: int) | Object(address: nat)

  /** `inherited` is the table of the superclass, overridden by what the class itself defines. */
  class Class {
    var parent: Class?
    var inheritable: bool
    var statics: map<string, Value>
    /** The fields defined in the body of this class. */
    ghost var own: map<string, Value>
    /** The number of classes above this one. */
    ghost var height: nat

    /** `jml_obj_class_new`. */
    constructor ()
      ensures parent == null && inheritable && statics == map[] && own == map[]
    {
      parent, inheritable, statics, own, height := null, true, map[], map[], 0;
    }
  }

  /** All classes of a program run. */
  class Hierarchy {
    ghost var classes: set<Class>

    /** Superclasses are classes further up. */
    ghost predicate Rooted()
      reads this, classes
    {
      forall c :: c in classes && c.parent != null ==> c.parent in classes && c.parent.height < c.height
    }

    /** Every table holds the fields of the superclass's table, overridden by the class's own. */
    ghost predicate Flattened()
      requires Rooted()
      reads this, classes
    {
      forall c :: c in classes ==> c.statics == Inherited(c) + c.own
    }

    ghost function Inherited(c: Class): map<string, Value>
      requires Rooted() && c in classes
      reads this, classes
    {
      if c.parent == null then map[] else c.parent.statics
    }

    ghost predicate Valid()
      reads this, classes
    {
      Rooted() && Flattened()
    }

    /** The nearest definition of a name along the chain of superclasses. */
    ghost function Walk(c: Class, name: string): Option<Value>
      requires Rooted() && c in classes
      reads this, classes
      decreases c.height
    {
      if name in c.own then Some(c.own[name])
      else if c.parent == null then None
      else Walk(c.parent, name)
    }

    /** What the class's own table says. */
    ghost function Look(c: Class, name: string): Option<Value>
      reads c
    {
      if name in c.statics then Some(c.statics[name]) else None
    }

    /** Nothing inherits from the class. */
    ghost predicate Leaf(k: Class)
      reads this, classes
    {
      forall c :: c in classes ==> c.parent != k
    }

    constructor ()
      ensures Valid() && classes == {}
    {
      classes := {};
    }

    /** `OP_CLASS`. */
    method Declare() returns (c: Class)
      requires Valid()
      modifies this
      ensures Valid() && fresh(c) && classes == old(classes) + {c}
      ensures c.parent == null && c.inheritable && c.own == map[] && Leaf(c)
    {
      c := new Class();
      classes := classes + {c};
    }

    /** `OP_INHERIT`; null stands for a value that is no class. False for a runtime error. */
    method Inherit(sub: Class, sup: Class?) returns (ok: bool)
      requires Valid() && sub in classes && (sup != null ==> sup in classes && sup != sub)
      requires sub.parent == null && sub.own == map[] && Leaf(sub)
      modifies sub
      ensures Valid() && ok == (sup != null && sup.inheritable)
      ensures sub.own == map[] && sub.inheritable == old(sub.inheritable)
      ensures sub.parent == (if ok then sup else null) && sub.statics == if ok then sup.statics else map[]
    {
      ok := sup != null && sup.inheritable;
      if ok {
        Adopt(sub, sup);
      }
    }

    /** The superclass is noted, and its fields are copied. */
    method Adopt(sub: Class, sup: Class)
      requires Valid() && sub in classes && sup in classes && sup != sub
      requires sub.parent == null && sub.own == map[] && Leaf(sub)
      modifies sub
      ensures Valid() && sub.own == map[] && sub.inheritable == old(sub.inheritable)
      ensures sub.parent == sup && sub.statics == sup.statics
    {
      assert sub.statics == map[] + map[];
      sub.parent := sup;
      sub.height := sup.height + 1;
      sub.statics := sub.statics + sup.statics;
      assert sub.statics == sup.statics && sup.statics + map[] == sup.statics;
      assert forall c :: c in classes && c != sub ==> c.parent == old(c.parent) && c.parent != sub;
    }

    /**
      `jml_vm_class_field_define`. Defining a field of a class that others inherit from
      already spoils exactly those of them that see something else under the name.
     */
    method Define(k: Class, name: string, value: Value)
      requires Valid() && k in classes
      modifies k
      ensures Rooted() && k.own == old(k.own)[name := value] && k.statics == old(k.statics)[name := value]
      ensures k.parent == old(k.parent) && k.inheritable == old(k.inheritable)
      ensures Flattened() <==> forall c :: c in classes && c.parent == k ==> name in c.own || Look(c, name) == Some(value)
    {
      OverrideOwn(Inherited(k), k.own, name, value);
      forall c | c in classes && c.parent == k
        ensures (c.statics == k.statics[name := value] + c.own) <==> (name in c.own || Look(c, name) == Some(value))
      {
        OverrideBelow(k.statics, c.own, c.statics, name, value);
      }
      k.statics := k.statics[name := value];
      k.own := k.own[name := value];
      assert forall c :: c in classes && c.parent != k ==> Inherited(c) == old(Inherited(c));
    }

    /** The lookup in a table and the walk up the chain agree. */
    lemma {:induction false} LookIsWalk(c: Class, name: string)
      requires Valid() && c in classes
      ensures Look(c, name) == Walk(c, name)
      decreases c.height
    {
      if name !in c.own && c.parent != null {
        LookIsWalk(c.parent, name);
      }
    }

    /** They agree everywhere only if the tables are flattened. */
    lemma AgreeingIsFlattened()
      requires Rooted()
      requires forall c, name :: c in classes ==> Look(c, name) == Walk(c, name)
      ensures Flattened()
    {
      forall c | c in classes
        ensures c.statics == Inherited(c) + c.own
      {
        forall name: string
          ensures name in c.statics <==> name in Inherited(c) + c.own
          ensures name in c.statics ==> c.statics[name] == (Inherited(c) + c.own)[name]
        {
          assert Look(c, name) == Walk(c, name);
          if c.parent != null {
            assert Look(c.parent, name) == Walk(c.parent, name);
          }
        }
      }
    }
  }

  lemma OverrideOwn(above: map<string, Value>, own: map<string, Value>, name: string, value: Value)
    ensures above + own[name := value] == (above + own)[name := value]
  {
  }

  /** A new field of the superclass changes nothing exactly if it is hidden or known already. */
  lemma OverrideBelow(above: map<string, Value>, own: map<string, Value>, statics: map<string, Value>, name: string, value: Value)
    requires statics == above + own
    ensures statics == above[name := value] + own <==> name in own || (name in statics && statics[name] == value)
  {
    if name !in own && statics == above[name := value] + own {
      assert (above[name := value] + own)[name] == value;
    }
  }
}
