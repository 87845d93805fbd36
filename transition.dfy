/**
 * A guarded edge of the tokenizer automaton (yap/src/tokenizer/state/transition.rs).
 * The target is a type parameter `S` so that this module does not depend on the
 * state class; in the Rust it is a borrowed `&State`.
 */
module Transitions {
  import opened Wrappers

  /** An inclusive character range with at most one excluded character, and a target. */
  datatype Transition<S> = Transition(min: char, max: char, exception: Option<char>, next: S)
  {
    /** The guard: `do_transition`. */
    predicate DoTransition(ch: char)
      ensures DoTransition(ch) <==> InRange(ch) && exception != Some(ch)
    {
      match exception
      case Some(c) => ch != c && min <= ch && ch <= max
      case None => min <= ch && ch <= max
    }

    /** Compares the three guard fields, never the target: `is_same`. */
    predicate IsSame(min': char, max': char, ex: Option<char>)
      ensures IsSame(min', max', ex) <==> Transition(min', max', ex, next) == this
    {
      min == min' && max == max' && exception == ex
    }

    /** The characters the range `[min, max]` covers, ignoring the exception. */
    predicate InRange(ch: char) {
      min <= ch <= max
    }
  }

  /** `Transition::new`: a plain struct literal, no validation of the range or exception. */
  function New<S>(min: char, max: char, ex: Option<char>, next: S): (t: Transition<S>)
    ensures t.next == next
    ensures t.IsSame(min, max, ex)
  {
    Transition(min, max, ex, next)
  }

  /** Without an exception the guard is exactly range membership. */
  lemma NoExceptionIsRange<S>(t: Transition<S>, ch: char)
    requires t.exception.None?
    ensures t.DoTransition(ch) <==> t.InRange(ch)
  {
  }

  /** With exception `c` the guard is range membership minus `c`; `c` itself never passes. */
  lemma ExceptionIsExcluded<S>(t: Transition<S>, ch: char)
    requires t.exception.Some?
    ensures t.DoTransition(ch) <==> ch != t.exception.value && t.InRange(ch)
    ensures !t.DoTransition(t.exception.value)
  {
  }

  /** Setting an exception `c` changes the guard's verdict at `c` only. */
  lemma ExceptionChangesOnlyItself<S>(t: Transition<S>, c: char, ch: char)
    requires t.exception.None?
    ensures ch != c ==> (t.(exception := Some(c)).DoTransition(ch) <==> t.DoTransition(ch))
    ensures !t.(exception := Some(c)).DoTransition(c)
  {
  }

  /** Nothing rejects `min > max`; such a transition simply never fires. */
  lemma EmptyRangeNeverFires<S>(min: char, max: char, ex: Option<char>, next: S, ch: char)
    requires min > max
    ensures !New(min, max, ex, next).DoTransition(ch)
  {
  }

  /** `is_same` holds exactly when rebuilding from the arguments gives the same transition. */
  lemma IsSameIffRebuilt<S>(t: Transition<S>, min: char, max: char, ex: Option<char>)
    ensures t.IsSame(min, max, ex) <==> New(min, max, ex, t.next) == t
    ensures t.IsSame(t.min, t.max, t.exception)
  {
  }

  /** The test `check_constructor` of transition.rs: the target is stored unchanged. */
  method TransitionCheckConstructor<S>(root: S) returns (t: Transition<S>)
    ensures t.next == root && t.min == 'a' && t.max == 'z' && t.exception == None
  {
    t := New('a', 'z', None, root);
  }
}
