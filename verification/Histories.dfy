/** What a sequence of steps says by itself, whatever machine takes them. */
module Histories {
  function Before<T>(steps: seq<T>): seq<T>
    requires steps != []
  {
    steps[..|steps| - 1]
  }

  function Last<T>(steps: seq<T>): T
    requires steps != []
  {
    steps[|steps| - 1]
  }

  /** Something that `on` switches on and `off` switches off: whichever came last decides. */
  predicate SwitchedOn<T(==)>(was: bool, steps: seq<T>, on: T, off: T) {
    || (was && off !in steps)
    || exists i :: 0 <= i < |steps| && steps[i] == on && off !in steps[i + 1..]
  }

  lemma SwitchedByNone<T>(was: bool, on: T, off: T)
    ensures SwitchedOn(was, [], on, off) <==> was
  {
  }

  lemma SwitchedByFirst<T>(was: bool, steps: seq<T>, on: T, off: T)
    requires steps != [] && on != off
    ensures SwitchedOn(was, steps, on, off) <==>
      SwitchedOn(steps[0] == on || (was && steps[0] != off), steps[1..], on, off)
  {
    var more := steps[1..];
    assert steps == [steps[0]] + more;
    forall i | 0 <= i < |more|
      ensures more[i] == steps[i + 1] && more[i + 1..] == steps[i + 2..]
    {
    }
    if i :| 0 <= i < |more| && more[i] == on && off !in more[i + 1..] {
      assert steps[i + 1] == on && off !in steps[i + 2..];
    }
    if i :| 0 <= i < |steps| && steps[i] == on && off !in steps[i + 1..] {
      assert i > 0 ==> more[i - 1] == on && off !in more[i..];
      assert i == 0 ==> off !in more;
    }
    if steps[0] == on && off !in more {
      assert steps[0] == on && off !in steps[1..];
    }
  }
}
