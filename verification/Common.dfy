/** Shared vocabulary: optional values and the fate of one step of a process that may die. */
module Common {

  datatype Option<+T> = None | Some(value: T)

  newtype Byte = x: int | 0 <= x < 256

  /** What became of one operating-system step: it took effect, it was refused
      without effect, or the process died around it. */
  datatype Fate = Done | Failed | Crashed

  /** How a procedure ended.  `Raised` is a Python exception that left the procedure;
      `Died` is a crash of the process, after which only durable state counts. */
  datatype Exit<+T> = Returned(value: T) | Raised | Died

  /** One step of the outside world's choosing.  `left` is how many steps may still fail or
      crash; it bounds the faults of a run without fixing where they fall. */
  method Chance(left: nat) returns (fate: Fate, rest: nat)
    ensures fate.Done? ==> rest == left
    ensures !fate.Done? ==> rest + 1 == left
  {
    fate, rest := *, left;
    if left == 0 {
      fate := Done;
    } else if !fate.Done? {
      rest := left - 1;
    }
  }

  lemma {:induction false} SubsetSize<T>(a: set<T>, b: set<T>)
    requires a <= b
    ensures |a| <= |b| && (|a| == |b| ==> a == b)
    decreases |a|
  {
    if a == {} {
      assert |b| == 0 ==> b == {};
    } else {
      var x :| x in a;
      SubsetSize(a - {x}, b - {x});
      assert a == (a - {x}) + {x} && b == (b - {x}) + {x};
    }
  }
}
