# yap tokenizer states, modelled in Dafny

The `yap` repository's tokenizer is built from automaton nodes (`State`) joined
by guarded edges (`Transition`). A `State` has an integer id handed out by a
shared counter (`IdMgr`), an optional link to the root state, an ordered list of
outgoing transitions and an optional token tag. `walk(ch)` takes one character
step: the root absorbs whitespace; otherwise the first transition whose guard
accepts `ch` wins; if none does, the walk falls back to the root, or to the
state itself when it has no root. A transition's guard is an inclusive range
`[min, max]` with at most one excluded character.

Files:

- `wrappers.dfy` (module `Wrappers`): `Option`, a `Result` whose error case is a
  Rust panic, the `i32` newtype and the wrapping increment `AtomicI32::fetch_add`
  performs.
- `transition.dfy` (module `Transitions`): `Transition<S>` as a datatype with
  `DoTransition` and `IsSame`, where `S` is the type of the target. In the Rust
  the target is a borrowed `&State`.
- `state.dfy` (module `States`): `IdMgr` and `State` as classes whose objects
  refer to one another as the Rust references do. It also has the first-match
  search behind `walk`, `Walk` itself, and the three Rust unit tests written as
  methods with postconditions.

What the code does, and so what the model does:

- Ids start at 1, and the root is the state whose id is 1.
- States refer to each other by reference; a transition's target is a reference to a state.
- `Transition::new` validates nothing. A transition with `min > max`, or with an
  exception at or outside the ends of the range, is stored as given.
- When nothing matches, `walk` returns the root if the state has one, and the
  state itself otherwise.

The counter is an `AtomicI32`, and `fetch_add` wraps on overflow. The model
writes this out. `State.New` therefore only panics for a rootless state whose
id is above 1. After `i32::MAX` the ids turn negative, and a rootless state is
accepted again.

## Model

| member | source | states |
|---|---|---|
| Wrappers.WrappingInc | yap/src/tokenizer/state/mod.rs:23 | the stored value is the two's-complement (modulo 2^32) sum of the old value and 1: one more below `i32::MAX`, `i32::MIN` after it |
| Transitions.New | yap/src/tokenizer/state/transition.rs:12-14 | the built transition has the given target, and its guard fields equal the arguments (`IsSame` holds for them) |
| Transitions.Transition.DoTransition | yap/src/tokenizer/state/transition.rs:16-21 | the guard accepts `ch` exactly when `ch` lies in `[min, max]` and is not the exception |
| Transitions.Transition.IsSame | yap/src/tokenizer/state/transition.rs:23-25 | holds exactly when a transition built from the three arguments and this target equals this one |
| Transitions.NoExceptionIsRange | yap/src/tokenizer/state/transition.rs:19 | with no exception, the guard accepts `ch` exactly when `min <= ch <= max` |
| Transitions.ExceptionIsExcluded | yap/src/tokenizer/state/transition.rs:18 | with exception `c`, the guard is range membership with `ch != c`, so it never accepts `c` |
| Transitions.ExceptionChangesOnlyItself | yap/src/tokenizer/state/transition.rs:17-20 | adding an exception `c` changes the guard's answer only at `c` |
| Transitions.EmptyRangeNeverFires | yap/src/tokenizer/state/transition.rs:12-20 | a transition built with `min > max` is accepted as given and rejects every character |
| Transitions.IsSameIffRebuilt | yap/src/tokenizer/state/transition.rs:23-25 | `is_same(min, max, ex)` holds exactly when rebuilding from those arguments and the same target gives the same transition; it always holds of the transition's own fields |
| Transitions.TransitionCheckConstructor | yap/src/tokenizer/state/transition.rs:33-39 | a transition built on `root` has `root` as its target |
| States.IsWhitespace | yap/src/tokenizer/state/mod.rs:38 | the Unicode White_Space code points; among ASCII characters exactly space and tab through carriage return |
| States.AsciiWhitespace | yap/src/tokenizer/state/mod.rs:38 | space, tab, newline, carriage return, vertical tab and form feed are whitespace; `a` and `0` are not |
| States.IdMgr.constructor | yap/src/tokenizer/state/mod.rs:6-8 | the counter holds the given start value |
| States.IdMgr.FetchAdd | yap/src/tokenizer/state/mod.rs:23 | returns the old counter value and stores its wrapping successor |
| States.IssuedIds | yap/src/tokenizer/state/mod.rs:23 | `k` successive calls hand out `k` ids, the first of which is the counter's current value |
| States.IssuedIdsCountUp | yap/src/tokenizer/state/mod.rs:23 | while the counter does not pass `i32::MAX`, the ids handed out are `start, start + 1, ...` |
| States.IssueIds | yap/src/tokenizer/state/mod.rs:23 | `k` successive `fetch_add` calls on a counter return exactly `IssuedIds` of its starting value |
| States.FreshContextIds | yap/src/tokenizer/state/mod.rs:18-27 | from a fresh context the ids are 1, 2, 3, ... and strictly increasing, so only the first state may be rootless without a panic |
| States.FindFirst | yap/src/tokenizer/state/mod.rs:41 | returns the index of the first transition whose guard accepts `ch`, or nothing when no transition accepts it |
| States.FirstMatchUnique | yap/src/tokenizer/state/mod.rs:41 | there is at most one first match, so an earlier overlapping transition shadows later ones |
| States.FindFirstAppend | yap/src/tokenizer/state/mod.rs:41 | appending a transition leaves every earlier match as it was, and only catches characters nothing accepted before |
| States.State.Make | yap/src/tokenizer/state/mod.rs:30 | a new state has the given id and root, no transitions and no token |
| States.State.Context | yap/src/tokenizer/state/mod.rs:18-20 | a fresh context's counter holds 1 |
| States.State.New | yap/src/tokenizer/state/mod.rs:22-31 | the counter always advances by one; the call panics exactly when no root is given and the id is above 1; otherwise the fresh state has that id, the given root, no transitions, no token, and is rootless only if its id is at most 1 |
| States.State.IsRootState | yap/src/tokenizer/state/mod.rs:33-35 | a state is the root exactly when it holds the first id a fresh context hands out (1) |
| States.State.AddTransition | yap/src/tokenizer/state/mod.rs:13 | appends one transition to the end of the list and changes nothing else |
| States.State.Walk | yap/src/tokenizer/state/mod.rs:37-49 | the root on whitespace returns itself; otherwise the first accepting transition's target is returned; with no match, the root is returned, or the state itself if it has no root; the result is always the state, its root or a transition target |
| States.RootAbsorbsWhitespace | yap/src/tokenizer/state/mod.rs:38-40 | the root stays put on space, tab and newline whatever its transitions |
| States.EarlierShadowsLater | yap/src/tokenizer/state/mod.rs:41-43 | when transitions `i < j` both accept `ch`, the walk takes the first match, at or before `i`; when nothing before `i` accepts `ch`, the walk returns the target of `i`, never that of `j` |
| States.RootChecks | yap/src/tokenizer/state/mod.rs:56-65 | the first state of a context has id 1 and is the root; the second has id 2 and is not |
| States.DontPassRootState | yap/src/tokenizer/state/mod.rs:67-74 | creating a second rootless state panics |
| States.CheckConstructor | yap/src/tokenizer/state/mod.rs:76-83 | a new root has no token, no root link and no transitions |

## Left out

- Atomicity of `AtomicI32` and the `Ordering::SeqCst` memory ordering: the counter is used from one thread, so it is a plain field that wraps like the atomic.
- Rust lifetimes and borrowing: states are Dafny objects and transitions hold references to them.
- The Unicode White_Space property comes from the standard library. It is written out as an explicit set of its 25 code points.
- `State.AddTransition` is not in the source, whose transition list is private and always empty. It exists only so that `Walk` has transitions to work on, and it validates nothing.
- `emit_token` is a public field in the source. The model has no operation that sets it, and callers assign the field directly.
- yap/src/main.rs is not part of this model. It calls `State::new` with three arguments, which matches no signature in mod.rs.
