/**
 * Automaton nodes and the per-character step (yap/src/tokenizer/state/mod.rs).
 * States are objects, as the Rust's `&State` references are; a transition's
 * target and a state's root link are references to other `State` objects.
 */
module States {
  import opened Wrappers
  import opened Transitions

  /** The Unicode White_Space code points, which is what `char::is_whitespace` tests. */
  const WHITE_SPACE: set<char> := {
    '\t', '\n', '\U{B}', '\U{C}', '\r', ' ', '\U{85}', '\U{A0}', '\U{1680}',
    '\U{2000}', '\U{2001}', '\U{2002}', '\U{2003}', '\U{2004}', '\U{2005}',
    '\U{2006}', '\U{2007}', '\U{2008}', '\U{2009}', '\U{200A}',
    '\U{2028}', '\U{2029}', '\U{202F}', '\U{205F}', '\U{3000}'
  }

  predicate IsWhitespace(ch: char)
    ensures ch < '\U{80}' ==> (IsWhitespace(ch) <==> ch == ' ' || '\t' <= ch <= '\r')
  {
    ch in WHITE_SPACE
  }

  /** The ASCII characters the root absorbs, and one it does not. */
  lemma AsciiWhitespace()
    ensures IsWhitespace(' ') && IsWhitespace('\t') && IsWhitespace('\n') && IsWhitespace('\r')
    ensures IsWhitespace('\U{B}') && IsWhitespace('\U{C}')
    ensures !IsWhitespace('a') && !IsWhitespace('0')
  {
  }

  /** The identifier counter of mod.rs: `IdMgr { next_id: AtomicI32 }`. */
  class IdMgr {
    var nextId: i32

    constructor (start: i32)
      ensures nextId == start
    {
      nextId := start;
    }

    /** `fetch_add(1, _)`: returns the old value and stores it plus one, wrapping at `i32::MAX`. */
    method FetchAdd() returns (id: i32)
      modifies this
      ensures id == old(nextId)
      ensures nextId == WrappingInc(old(nextId))
    {
      id := nextId;
      nextId := WrappingInc(nextId);
    }
  }

  /**
   * The identifiers handed out by `k` successive `State.New` calls on a counter
   * that currently holds `start`.
   */
  function IssuedIds(start: i32, k: nat): (ids: seq<i32>)
    ensures |ids| == k
    ensures k > 0 ==> ids[0] == start
    decreases k
  {
    if k == 0 then [] else [start] + IssuedIds(WrappingInc(start), k - 1)
  }

  /** Until the counter would pass `i32::MAX`, the identifiers count up by one from `start`. */
  lemma {:induction false} IssuedIdsCountUp(start: i32, k: nat)
    requires start as int + k <= I32_MAX as int + 1
    ensures forall i :: 0 <= i < k ==> IssuedIds(start, k)[i] as int == start as int + i
    decreases k
  {
    if k > 0 {
      var rest := IssuedIds(WrappingInc(start), k - 1);
      IssuedIdsCountUp(WrappingInc(start), k - 1);
      assert IssuedIds(start, k) == [start] + rest;
    }
  }

  /**
   * From a fresh context the identifiers are 1, 2, 3, ..., strictly increasing,
   * so only the first `State.New` may omit the root without panicking.
   */
  lemma FreshContextIds(k: nat)
    requires k <= I32_MAX as int
    ensures forall i :: 0 <= i < k ==> IssuedIds(1, k)[i] as int == i + 1
    ensures forall i, j :: 0 <= i < j < k ==> IssuedIds(1, k)[i] < IssuedIds(1, k)[j]
    ensures forall i :: 0 < i < k ==> IssuedIds(1, k)[i] > 1
  {
    IssuedIdsCountUp(1, k);
  }

  /**
   * `k` successive `fetch_add` calls on `context`, as `k` successive `State.New`
   * calls make them: the identifiers returned are `IssuedIds` of the start value.
   */
  method IssueIds(context: IdMgr, k: nat) returns (ids: seq<i32>)
    modifies context
    ensures ids == IssuedIds(old(context.nextId), k)
  {
    ids := [];
    var i := 0;
    while i < k
      invariant 0 <= i <= k
      invariant ids + IssuedIds(context.nextId, k - i) == IssuedIds(old(context.nextId), k)
    {
      var id := context.FetchAdd();
      ids := ids + [id];
      i := i + 1;
    }
  }

  /** `i` is the position of the first transition in `ts` whose guard accepts `ch`. */
  predicate IsFirstMatch<S>(ts: seq<Transition<S>>, ch: char, i: int) {
    0 <= i < |ts| && ts[i].DoTransition(ch) && forall j :: 0 <= j < i ==> !ts[j].DoTransition(ch)
  }

  /** No transition in `ts` accepts `ch`. */
  predicate NoneMatch<S>(ts: seq<Transition<S>>, ch: char) {
    forall j :: 0 <= j < |ts| ==> !ts[j].DoTransition(ch)
  }

  /** `transitions.iter().find(|x| x.do_transition(ch))`, as the index of the found element. */
  function FindFirst<S>(ts: seq<Transition<S>>, ch: char): (r: Option<nat>)
    ensures r.Some? ==> IsFirstMatch(ts, ch, r.value)
    ensures r.None? ==> NoneMatch(ts, ch)
  {
    if |ts| == 0 then None
    else if ts[0].DoTransition(ch) then Some(0)
    else match FindFirst(ts[1..], ch)
      case None => None
      case Some(k) => Some(k + 1)
  }

  /** There is at most one first match, so an earlier overlapping transition shadows a later one. */
  lemma FirstMatchUnique<S>(ts: seq<Transition<S>>, ch: char, i: int, j: int)
    requires IsFirstMatch(ts, ch, i) && IsFirstMatch(ts, ch, j)
    ensures i == j
  {
  }

  /**
   * Appending a transition leaves every character an earlier transition accepts
   * where it was; it only fills characters nothing accepted before.
   */
  lemma {:induction false} FindFirstAppend<S>(ts: seq<Transition<S>>, t: Transition<S>, ch: char)
    ensures FindFirst(ts + [t], ch) ==
      match FindFirst(ts, ch)
      case Some(k) => Some(k)
      case None => if t.DoTransition(ch) then Some(|ts|) else None
  {
    if |ts| > 0 {
      assert (ts + [t])[1..] == ts[1..] + [t];
      FindFirstAppend(ts[1..], t, ch);
    }
  }

  /** An automaton node: `State { id, root, transitions, emit_token }`. */
  class State {
    const id: i32
    const root: Option<State>
    var transitions: seq<Transition<State>>
    var emitToken: Option<i32>

    /** The struct literal at the end of `State::new`. */
    constructor Make(id: i32, root: Option<State>)
      ensures this.id == id && this.root == root
      ensures transitions == [] && emitToken == None
    {
      this.id := id;
      this.root := root;
      transitions := [];
      emitToken := None;
    }

    /** `State::context()`: a fresh counter holding 1. */
    static method Context() returns (context: IdMgr)
      ensures fresh(context) && context.nextId == 1
    {
      context := new IdMgr(1);
    }

    /**
     * `State::new`: takes the next identifier (the counter moves on even when the
     * call then panics) and panics when no root is given for an identifier above 1.
     */
    static method New(context: IdMgr, root: Option<State>) returns (r: Result<State>)
      modifies context
      ensures context.nextId == WrappingInc(old(context.nextId))
      ensures r.Panic? <==> root.None? && old(context.nextId) > 1
      ensures r.Ok? ==> fresh(r.value) && r.value.id == old(context.nextId) && r.value.root == root
      ensures r.Ok? ==> r.value.transitions == [] && r.value.emitToken == None
      ensures r.Ok? ==> r.value.RootLinked()
    {
      var id := context.FetchAdd();
      if root.None? && id > 1 {
        return Panic("Non root state must include root");
      }
      var s := new State.Make(id, root);
      return Ok(s);
    }

    /** `is_root_state`: the state holding the first identifier a fresh context hands out. */
    predicate IsRootState()
      ensures IsRootState() <==> id == IssuedIds(1, 1)[0]
    {
      id == 1
    }

    /** What `State::new` guarantees of every state it returns: a rootless state has an id of at most 1. */
    predicate RootLinked() {
      root.None? ==> id <= 1
    }

    /**
     * Appends a transition. The Rust list is private and starts empty; this is the
     * model's only way to give a state outgoing edges, and it validates nothing.
     */
    method AddTransition(t: Transition<State>)
      modifies this`transitions
      ensures transitions == old(transitions) + [t]
    {
      transitions := transitions + [t];
    }

    /** `walk`: the per-character step. */
    function Walk(ch: char): (r: State)
      reads this
      ensures IsRootState() && IsWhitespace(ch) ==> r == this
      ensures !(IsRootState() && IsWhitespace(ch)) ==>
        forall i :: IsFirstMatch(transitions, ch, i) ==> r == transitions[i].next
      ensures !(IsRootState() && IsWhitespace(ch)) && NoneMatch(transitions, ch) ==>
        r == (if root.Some? then root.value else this)
      ensures r == this || root == Some(r) || exists i :: 0 <= i < |transitions| && transitions[i].next == r
    {
      if IsRootState() && IsWhitespace(ch) then this
      else match FindFirst(transitions, ch)
        case Some(k) =>
          assert forall i :: IsFirstMatch(transitions, ch, i) ==> i == k by {
            forall i | IsFirstMatch(transitions, ch, i) ensures i == k {
              FirstMatchUnique(transitions, ch, i, k);
            }
          }
          transitions[k].next
        case None =>
          match root
          case Some(r) => r
          case None => this
    }
  }

  /** The root returns itself on every whitespace character, whatever its transitions. */
  lemma RootAbsorbsWhitespace(s: State, ch: char)
    requires s.IsRootState() && IsWhitespace(ch)
    ensures s.Walk(ch) == s
    ensures s.Walk(' ') == s && s.Walk('\t') == s && s.Walk('\n') == s
  {
  }

  /**
   * Of two transitions that both accept `ch`, the one earlier in the list shadows
   * the later: the walk takes the first match, which is at or before the earlier one.
   */
  lemma EarlierShadowsLater(s: State, i: nat, j: nat, ch: char)
    requires i < j < |s.transitions|
    requires s.transitions[i].DoTransition(ch) && s.transitions[j].DoTransition(ch)
    requires !(s.IsRootState() && IsWhitespace(ch))
    ensures FindFirst(s.transitions, ch).Some? && FindFirst(s.transitions, ch).value <= i
    ensures s.Walk(ch) == s.transitions[FindFirst(s.transitions, ch).value].next
    ensures (forall m :: 0 <= m < i ==> !s.transitions[m].DoTransition(ch)) ==> s.Walk(ch) == s.transitions[i].next
  {
  }

  /** The test `root_checks`: the first state is 1 and the root, the next is 2 and is not. */
  method RootChecks() returns (rootId: i32, rootIsRoot: bool, stId: i32, stIsRoot: bool)
    ensures rootId == 1 && rootIsRoot
    ensures stId == 2 && !stIsRoot
  {
    var context := State.Context();
    var root := State.New(context, None);
    rootId, rootIsRoot := root.value.id, root.value.IsRootState();
    var st := State.New(context, Some(root.value));
    stId, stIsRoot := st.value.id, st.value.IsRootState();
  }

  /** The test `dont_pass_root_state`: a second rootless state panics. */
  method DontPassRootState() returns (r: Result<State>)
    ensures r.Panic?
  {
    var context := State.Context();
    var root := State.New(context, None);
    r := State.New(context, None);
  }

  /** The test `check_constructor` of mod.rs: a new root has no token, no root link and no transitions. */
  method CheckConstructor() returns (noToken: bool, noRoot: bool, count: nat)
    ensures noToken && noRoot && count == 0
  {
    var context := State.Context();
    var root := State.New(context, None);
    noToken, noRoot, count := root.value.emitToken.None?, root.value.root.None?, |root.value.transitions|;
  }
}
