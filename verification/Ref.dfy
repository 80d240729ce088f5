/** RefCounted, Ref and WeakRef as code run by one thread, each count change a step of the machine. */
module RefCounts {
  import M = RefCountMachine

  /** Some name nobody in s uses. */
  lemma {:induction false} FreshName(s: set<nat>) returns (name: nat)
    ensures name !in s && forall x :: x in s ==> x < name
    decreases s
  {
    if s == {} {
      name := 0;
    } else {
      var x :| x in s;
      name := FreshName(s - {x});
      assert forall y :: y in s ==> y == x || y in s - {x};
      if name <= x {
        name := x + 1;
      }
    }
  }

  class RefCounted {
    var strongCount: nat
    var weakCount: nat
    ghost var m: M.State

    ghost predicate Agrees()
      reads this
    {
      M.Inv(m) && |m.pcs| == 1 && strongCount == m.strong && weakCount == m.weak
    }

    /** Between two operations. */
    ghost predicate Valid()
      reads this
    {
      Agrees() && m.pcs[0] == M.Idle
    }

    constructor ()
      ensures Valid() && m == M.Init(1)
    {
      strongCount, weakCount := 0, 1;
      m := M.Init(1);
      new;
      M.InitInv(1);
    }

    method AddRef(ghost a: M.Action)
      requires Valid() && M.Enabled(m, a) && (a.Adopt? || a.CopyRef?)
      modifies this
      ensures Valid() && m == M.Next(old(m), a)
    {
      M.InvStep(m, a);
      strongCount := strongCount + 1;
      m := M.Next(m, a);
    }

    method AddWeakRef(ghost a: M.Action)
      requires Valid() && M.Enabled(m, a) && (a.MakeWeak? || a.CopyWeak?)
      modifies this
      ensures Valid() && m == M.Next(old(m), a)
    {
      M.InvStep(m, a);
      weakCount := weakCount + 1;
      m := M.Next(m, a);
    }

    /** Dropping the last strong holder destroys the object, and frees it if nobody is left. */
    method Release(ghost ref: nat)
      requires Valid() && ref in m.refs
      modifies this
      ensures Valid() && m.refs == old(m.refs) - {ref} && m.weaks == old(m.weaks)
      ensures m.destroyed == if m.refs == {} then 1 else 0
      ensures m.freed == if m.refs == {} && m.weaks == {} then 1 else 0
    {
      ghost var a := M.Release(0, ref);
      M.InvStep(m, a);
      M.DropSize(m.refs, ref);
      var prev := strongCount;
      strongCount := M.Dec(strongCount);
      m := M.Next(m, a);
      if prev == 1 {
        OnZeroStrongRefs();
        ReleaseWeakRef(M.Proceed(0));
      }
    }

    /** The destructor runs; the storage stays. */
    ghost method OnZeroStrongRefs()
      requires Agrees() && m.pcs[0] == M.Destroying
      modifies this`m
      ensures Agrees() && m.pcs[0] == M.ReleasingPhantom && m == M.Next(old(m), M.Proceed(0))
    {
      M.InvStep(m, M.Proceed(0));
      m := M.Next(m, M.Proceed(0));
    }

    method ReleaseWeakRef(ghost a: M.Action)
      requires Agrees() && M.Enabled(m, a)
      requires a.ReleaseWeak? || (a.Proceed? && m.pcs[0] == M.ReleasingPhantom)
      modifies this
      ensures Valid() && m.refs == old(m.refs)
      ensures m.weaks == old(m.weaks) - if a.ReleaseWeak? then {a.weak} else {}
      ensures m.destroyed == old(m.destroyed)
      ensures m.freed == if m.weaks == {} && (a.Proceed? || m.stage.Gone?) then 1 else 0
      ensures m.stage == if a.Proceed? then M.Gone else old(m.stage)
    {
      M.InvStep(m, a);
      assert M.ThreadOk(m, 0);
      var prev := weakCount;
      weakCount := M.Dec(weakCount);
      m := M.Next(m, a);
      if prev == 1 {
        M.InvStep(m, M.Proceed(0));
        m := M.Next(m, M.Proceed(0));
      }
    }

    /** The compare-and-swap loop; `spurious` counts the weak failures still to come. */
    method TryAddRefFromWeak(ghost weak: nat, ghost ref: nat, spurious: nat) returns (locked: bool)
      requires Valid() && weak in m.weaks && M.FreeRef(m, ref)
      modifies this
      ensures Valid() && locked == (old(strongCount) != 0)
      ensures m.weaks == old(m.weaks) && m.refs == old(m.refs) + if locked then {ref} else {}
      ensures m.destroyed == old(m.destroyed) && m.freed == old(m.freed)
      ensures locked ==> m.destroyed == 0
    {
      Step(M.BeginLock(0, weak, ref));
      var current := strongCount;
      var failures := spurious;
      while current != 0 && failures > 0
        invariant Agrees() && m == M.Next(old(m), M.BeginLock(0, weak, ref))
        invariant current == strongCount == old(strongCount)
      {
        Step(M.SpuriousFailure(0));
        current := strongCount;
        failures := failures - 1;
      }
      M.LockOutcome(m, 0);
      locked := current != 0;
      if locked {
        strongCount := current + 1;
      }
      M.InvStep(m, M.Proceed(0));
      m := M.Next(m, M.Proceed(0));
    }

    ghost method Step(a: M.Action)
      requires Agrees() && M.Enabled(m, a) && (a.BeginLock? || a.SpuriousFailure?)
      modifies this`m
      ensures Agrees() && m == M.Next(old(m), a)
    {
      M.InvStep(m, a);
      m := M.Next(m, a);
    }
  }

  /** A strong pointer. `token` is the name under which it is a holder of its object. */
  class Ref {
    var pointer: RefCounted?
    ghost var token: nat

    ghost predicate Holds()
      reads this, pointer
    {
      pointer != null ==> pointer.Valid() && token in pointer.m.refs
    }

    constructor ()
      ensures pointer == null
    {
      pointer, token := null, 0;
    }

    constructor Copy(other: Ref)
      requires other.Holds()
      modifies other.pointer
      ensures pointer == other.pointer && Holds() && other.Holds()
      ensures pointer != null ==>
        && token !in old(other.pointer.m.refs)
        && pointer.m == M.Next(old(other.pointer.m), M.CopyRef(other.token, token))
    {
      pointer, token := other.pointer, 0;
      new;
      if pointer != null {
        token := FreshName(pointer.m.refs);
        pointer.AddRef(M.CopyRef(other.token, token));
      }
    }

    constructor Move(other: Ref)
      requires other.Holds()
      modifies other
      ensures pointer == old(other.pointer) && token == old(other.token) && other.pointer == null && Holds()
    {
      pointer, token := other.pointer, other.token;
      new;
      other.pointer := null;
    }

    method Swap(other: Ref)
      modifies this, other
      ensures pointer == old(other.pointer) && token == old(other.token)
      ensures other.pointer == old(pointer) && other.token == old(token)
    {
      pointer, other.pointer := other.pointer, pointer;
      token, other.token := other.token, token;
    }

    /** Also what the destructor does. */
    method Reset()
      requires Holds()
      modifies this, pointer
      ensures pointer == null
      ensures var o := old(pointer);
        o != null ==>
          && o.Valid() && o.m.refs == old(pointer.m.refs) - {old(token)} && o.m.weaks == old(pointer.m.weaks)
          && o.m.destroyed == (if o.m.refs == {} then 1 else 0)
    {
      if pointer != null {
        pointer.Release(token);
        pointer := null;
      }
    }

    /** Copy assignment: a copy is made before the old reference goes, so assigning a reference to
        itself, or to another holder of the same object, never destroys the object. */
    method Assign(other: Ref)
      requires Holds() && other.Holds()
      requires this != other && pointer == other.pointer != null ==> token != other.token
      modifies this, pointer, other.pointer
      ensures pointer == old(other.pointer) && Holds()
      ensures other != this ==> other.pointer == old(other.pointer) && other.token == old(other.token) && other.Holds()
      ensures old(pointer) == old(other.pointer) && pointer != null ==>
        pointer.m.destroyed == 0 && |pointer.m.refs| == |old(pointer.m.refs)|
      ensures old(pointer) != old(other.pointer) && pointer != null ==>
        |pointer.m.refs| == |old(other.pointer.m.refs)| + 1
      ensures var o := old(pointer);
        o != null && o != old(other.pointer) ==> o.Valid() && o.m.refs == old(pointer.m.refs) - {old(token)}
    {
      var tmp := new Ref.Copy(other);
      Swap(tmp);
      tmp.Reset();
      if pointer != null && pointer == old(pointer) {
        M.DropSize(old(pointer.m.refs) + {token}, old(token));
      }
    }

    /** Move assignment: no count goes up; moving a reference onto itself changes nothing. */
    method AssignMove(other: Ref)
      requires Holds() && other.Holds()
      requires this != other && pointer == other.pointer != null ==> token != other.token
      modifies this, other, pointer
      ensures pointer == old(other.pointer) && Holds()
      ensures other != this ==> other.pointer == null
      ensures other == this && pointer != null ==> pointer.m == old(pointer.m)
      ensures var o := old(pointer);
        other != this && o != null ==> o.Valid() && o.m.refs == old(pointer.m.refs) - {old(token)}
    {
      var tmp := new Ref.Move(other);
      Swap(tmp);
      tmp.Reset();
    }

    /** Gives the +1 away without touching the count. */
    method Detach() returns (result: RefCounted?, ghost loose: nat)
      requires Holds()
      modifies this
      ensures pointer == null && result == old(pointer) && loose == old(token)
      ensures result != null ==> result.Valid() && loose in result.m.refs && result.m == old(pointer.m)
    {
      result, loose := pointer, token;
      pointer := null;
    }

    /** Takes over a +1 that somebody gave away. */
    method Attach(o: RefCounted?, ghost loose: nat)
      requires Holds()
      requires o != null ==> o.Valid() && loose in o.m.refs && (o == pointer ==> loose != token)
      modifies this, pointer
      ensures pointer == o && token == loose && Holds()
      ensures o != null && o != old(pointer) ==> o.m == old(o.m)
      ensures var p := old(pointer);
        p != null ==> p.Valid() && p.m.refs == old(pointer.m.refs) - {old(token)}
    {
      if pointer != null {
        pointer.Release(token);
      }
      pointer, token := o, loose;
    }
  }

  class WeakRef {
    var pointer: RefCounted?
    ghost var token: nat

    ghost predicate Holds()
      reads this, pointer
    {
      pointer != null ==> pointer.Valid() && token in pointer.m.weaks
    }

    constructor FromRef(strong: Ref)
      requires strong.Holds()
      modifies strong.pointer
      ensures pointer == strong.pointer && Holds() && strong.Holds()
      ensures pointer != null ==> pointer.m.refs == old(strong.pointer.m.refs)
    {
      pointer, token := strong.pointer, 0;
      new;
      if pointer != null {
        token := FreshName(pointer.m.weaks);
        pointer.AddWeakRef(M.MakeWeak(strong.token, token));
      }
    }

    constructor Copy(other: WeakRef)
      requires other.Holds()
      modifies other.pointer
      ensures pointer == other.pointer && Holds() && other.Holds()
      ensures pointer != null ==>
        && token !in old(other.pointer.m.weaks)
        && pointer.m == M.Next(old(other.pointer.m), M.CopyWeak(other.token, token))
    {
      pointer, token := other.pointer, 0;
      new;
      if pointer != null {
        token := FreshName(pointer.m.weaks);
        pointer.AddWeakRef(M.CopyWeak(other.token, token));
      }
    }

    constructor Move(other: WeakRef)
      requires other.Holds()
      modifies other
      ensures pointer == old(other.pointer) && token == old(other.token) && other.pointer == null && Holds()
    {
      pointer, token := other.pointer, other.token;
      new;
      other.pointer := null;
    }

    /** Promotion: a strong reference if the object is still alive, an empty one otherwise. */
    method Lock(spurious: nat) returns (strong: Ref)
      requires Holds()
      modifies pointer
      ensures fresh(strong) && strong.Holds() && Holds()
      ensures strong.pointer == if pointer != null && old(pointer.m.refs) != {} then pointer else null
      ensures pointer != null ==> |pointer.m.refs| == |old(pointer.m.refs)| + if strong.pointer != null then 1 else 0
    {
      strong := new Ref();
      if pointer != null {
        ghost var name := FreshName(pointer.m.refs);
        var locked := pointer.TryAddRefFromWeak(token, name, spurious);
        if locked {
          strong.Attach(pointer, name);
        }
      }
    }

    method Reset()
      requires Holds()
      modifies this, pointer
      ensures pointer == null
      ensures var o := old(pointer);
        o != null ==>
          && o.Valid() && o.m.refs == old(pointer.m.refs) && o.m.weaks == old(pointer.m.weaks) - {old(token)}
          && o.m.freed == (if o.m.refs == {} && o.m.weaks == {} then 1 else 0)
    {
      if pointer != null {
        M.FinishersAreBusy(pointer.m);
        pointer.ReleaseWeakRef(M.ReleaseWeak(0, token));
        pointer := null;
      }
    }
  }
}
