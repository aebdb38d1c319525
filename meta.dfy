/**
 * `kutil.meta.SingletonMeta`: one registry maps each class to its single
 * instance. The first call for a class constructs the instance, stores it,
 * then runs its `post_init` hook; every later call returns the stored one.
 */
module Meta {

  /** Identity of a class that uses the metaclass. */
  type ClassId = nat

  /** An instance, with the class it belongs to and the arguments it was built from. */
  class Instance<A> {
    const cls: ClassId
    const args: A

    constructor(cls: ClassId, args: A)
      ensures this.cls == cls && this.args == args
    {
      this.cls := cls;
      this.args := args;
    }
  }

  /** `_instances`, and the classes whose `post_init` has run, in order. */
  class Registry<A> {
    var instances: map<ClassId, Instance<A>>
    var hookCalls: seq<ClassId>

    /** Each registered class had its hook run exactly once; nobody else did. */
    ghost predicate Valid()
      reads this
    {
      && (forall c :: c in instances ==> instances[c].cls == c)
      && (forall c :: c in hookCalls <==> c in instances)
      && (forall i, j :: 0 <= i < j < |hookCalls| ==> hookCalls[i] != hookCalls[j])
    }

    constructor()
      ensures Valid() && instances == map[] && hookCalls == []
    {
      instances := map[];
      hookCalls := [];
    }

    /** `post_init`: runs on an instance that is already the registered one. */
    method PostInit(instance: Instance<A>)
      requires instance.cls in instances && instances[instance.cls] == instance
      modifies this
      ensures instances == old(instances)
      ensures hookCalls == old(hookCalls) + [instance.cls]
    {
      hookCalls := hookCalls + [instance.cls];
    }

    /** `__call__`. */
    method Call(cls: ClassId, args: A) returns (instance: Instance<A>)
      requires Valid()
      modifies this
      ensures Valid()
      ensures old(cls in instances) ==>
        instance == old(instances[cls]) && instances == old(instances) && hookCalls == old(hookCalls)
      ensures old(cls !in instances) ==>
        fresh(instance) && instance.cls == cls && instance.args == args &&
        instances == old(instances)[cls := instance] && hookCalls == old(hookCalls) + [cls]
    {
      if cls !in instances {
        var created := new Instance(cls, args);
        instances := instances[cls := created];
        PostInit(created);
      }
      instance := instances[cls];
    }
  }

  /**
   * Two calls for one class: the same instance, built from the first call's
   * arguments, with its hook run once; the registry keeps every other entry.
   */
  method CallTwice<A>(registry: Registry<A>, cls: ClassId, first: A, second: A)
    returns (a: Instance<A>, b: Instance<A>)
    requires registry.Valid()
    modifies registry
    ensures registry.Valid()
    ensures a == b && a.cls == cls
    ensures cls !in old(registry.instances) ==> a.args == first
    ensures forall c :: c in old(registry.instances) ==>
      c in registry.instances && registry.instances[c] == old(registry.instances[c])
    ensures cls in registry.hookCalls
    ensures |registry.hookCalls| == |old(registry.hookCalls)| + (if cls in old(registry.instances) then 0 else 1)
  {
    a := registry.Call(cls, first);
    b := registry.Call(cls, second);
  }

  /** Distinct classes get distinct instances. */
  method CallTwoClasses<A>(registry: Registry<A>, c1: ClassId, c2: ClassId, args: A)
    returns (a: Instance<A>, b: Instance<A>)
    requires registry.Valid() && c1 != c2
    modifies registry
    ensures registry.Valid()
    ensures a != b && a.cls == c1 && b.cls == c2
  {
    a := registry.Call(c1, args);
    b := registry.Call(c2, args);
  }
}
