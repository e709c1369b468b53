/**
  `SequenceBarrier` as interleaved atomic steps: one producer calling `publish`, any number of consumers
  awaiting sequence numbers, and the two-party handshake that decides who continues a coroutine.

  Numbers are kept as unbounded positions; every comparison the code makes is made on their words.
  A call is one activation of `publish` or of `await_suspend`, so a coroutine that publishes or awaits again
  while it is being resumed inside another call is simply a further call.
 */
module BarrierProtocol {
  import opened Lists
  import opened SequenceTraits

  type WaiterId = int
  type CallId = int

  /** A wait operation. */
  datatype Waiter = Waiter(
    target: int,        // _target_sequence
    lastKnown: int,     // _last_known_published
    ready: bool,        // await_ready answered true, so the coroutine never suspended
    flag: bool,         // _ready_to_resume
    handed: bool,       // some resume() has done its exchange
    asked: bool,        // await_suspend has done its exchange
    continued: nat)     // how often the coroutine was continued
  {
    /** On the shared list or in the hands of one call. */
    predicate Listed() { !ready && !handed }
  }

  datatype Progress = Progress(earliest: Sequence, floor: int, passes: nat, start: nat, seen: nat)

  /**
    The program counter and locals of a call. `passes`, `start` and `seen` count the enqueue passes begun, the numbers
    published at the first access of `add_awaiter` and those published at its latest load of the number; `floor` is
    the position whose word is `earliest`.
   */
  datatype Call =
    | PublishLoad(number: int)
    | PublishExchange(number: int)
    | PublishCas(number: int, requeue: seq<WaiterId>, expected: Option<WaiterId>, resume: seq<WaiterId>)
    | AddLoad(owner: WaiterId, p: Progress, requeue: seq<WaiterId>, resume: seq<WaiterId>)
    | AddCas(owner: WaiterId, p: Progress, requeue: seq<WaiterId>, expected: Option<WaiterId>, resume: seq<WaiterId>)
    | AddCheck(owner: WaiterId, p: Progress, resume: seq<WaiterId>)
    | AddExchange(owner: WaiterId, p: Progress, number: int, resume: seq<WaiterId>)
    | Resuming(client: Option<WaiterId>, number: int, resume: seq<WaiterId>, written: bool)
    | Asking(owner: WaiterId)

  datatype State = State(
    published: seq<int>,              // every number stored in _last_published, oldest first
    shared: seq<WaiterId>,            // the list that starts at _awaiters
    calls: map<CallId, Call>,
    waiters: map<WaiterId, Waiter>)

  /** What `_last_published` holds. */
  function Last(s: State): int {
    if s.published == [] then -1 else s.published[|s.published| - 1]
  }

  /** The waiters a call holds privately. */
  function Held(c: Call): seq<WaiterId> {
    match c
    case PublishCas(_, requeue, _, resume) => requeue + resume
    case AddLoad(_, _, requeue, resume) => requeue + resume
    case AddCas(_, _, requeue, _, resume) => requeue + resume
    case AddCheck(_, _, resume) => resume
    case AddExchange(_, _, _, resume) => resume
    case Resuming(_, _, resume, _) => resume
    case _ => []
  }

  /** The waiter on whose behalf the call runs `await_suspend`. */
  function Owner(c: Call): Option<WaiterId> {
    match c
    case AddLoad(w, _, _, _) => Some(w)
    case AddCas(w, _, _, _, _) => Some(w)
    case AddCheck(w, _, _) => Some(w)
    case AddExchange(w, _, _, _) => Some(w)
    case Resuming(client, _, _, _) => client
    case Asking(w) => Some(w)
    case _ => None
  }

  /** `publish` before its resume loop: the part that a single producer never overlaps with itself. */
  predicate Producing(c: Call) {
    c.PublishLoad? || c.PublishExchange? || c.PublishCas?
  }

  // ---------------------------------------------------------------- steps

  datatype Action =
    | Publish(call: CallId, number: int)
    | Await(waiter: WaiterId, call: CallId, target: int)
    | Advance(call: CallId, spurious: bool)

  function TargetWord(s: State, w: WaiterId): Sequence {
    if w in s.waiters then Wrap(s.waiters[w].target) else 0
  }

  /** What `publish` puts back and what it resumes. */
  function PublishPending(s: State, number: int): WaiterId -> bool {
    w => PublishKeeps(Wrap(number), TargetWord(s, w))
  }

  function PublishReached(s: State, number: int): WaiterId -> bool {
    w => !PublishKeeps(Wrap(number), TargetWord(s, w))
  }

  /** What `add_awaiter` puts back and what it resumes. */
  function AddPending(s: State, number: int): WaiterId -> bool {
    w => AddKeeps(Wrap(number), TargetWord(s, w))
  }

  function AddReached(s: State, number: int): WaiterId -> bool {
    w => !AddKeeps(Wrap(number), TargetWord(s, w))
  }

  /** `min_diff`: the least distance from `number` to a target, starting from the largest signed word. */
  function MinDifference(s: State, list: seq<WaiterId>, number: int): (d: int)
    ensures d < HALF
  {
    if list == [] then HALF - 1 else
      var rest := MinDifference(s, list[1..], number);
      var d := Difference(TargetWord(s, list[0]), Wrap(number));
      if d < rest then d else rest
  }

  function CallNumber(c: Call): Option<int> {
    match c
    case PublishLoad(n) => Some(n)
    case PublishExchange(n) => Some(n)
    case AddExchange(_, _, n, _) => Some(n)
    case _ => None
  }

  /** Positions that the barrier, or a call in progress, still compares targets with. */
  ghost predicate LiveNumber(s: State, n: int)
  {
    || n == Last(s)
    || exists c | c in s.calls :: CallNumber(s.calls[c]) == Some(n)
  }

  function CallFloor(c: Call): Option<int> {
    match c
    case AddLoad(_, p, _, _) => Some(p.floor)
    case AddCas(_, p, _, _, _) => Some(p.floor)
    case AddCheck(_, p, _) => Some(p.floor)
    case _ => None
  }

  /** Targets that the barrier, or a call in progress, may still compare. */
  ghost predicate LiveTarget(s: State, t: int) {
    || (exists w | w in s.waiters :: s.waiters[w].Listed() && s.waiters[w].target == t)
    || (exists c | c in s.calls :: CallFloor(s.calls[c]) == Some(t))
  }

  /** The duty of the callers: live numbers and live targets stay less than half the range apart. */
  ghost predicate InWindow(s: State)
  {
    forall n, t | LiveNumber(s, n) && LiveTarget(s, t) :: -HALF < t - n < HALF
  }

  /** Construct the operation, ask `await_ready`, and enter `add_awaiter` when it answers no. */
  function ApplyAwait(s: State, w: WaiterId, c: CallId, t: int): State
  {
    var known := Last(s);
    if !Precedes(Wrap(known), Wrap(t)) then
      s.(waiters := s.waiters[w := Waiter(t, known, true, false, false, false, 1)])
    else
      var n := |s.published|;
      s.(waiters := s.waiters[w := Waiter(t, known, false, false, false, false, 0)],
         calls := s.calls[c := AddLoad(w, Progress(Wrap(t), t, 0, n, n), [w], [])])
  }

  function Become(s: State, c: CallId, call: Call): State {
    s.(calls := s.calls[c := call])
  }

  function Finish(s: State, c: CallId): State {
    s.(calls := s.calls - {c})
  }

  /** The weak CAS of `publish`; when it fails, the head it saw becomes the next expectation. */
  function PublishPush(s: State, c: CallId, n: int, requeue: seq<WaiterId>, expected: Option<WaiterId>,
                       resume: seq<WaiterId>, spurious: bool): State {
    if !spurious && Head(s.shared) == expected
    then Become(s, c, Resuming(None, n, resume, false)).(shared := requeue + s.shared)
    else Become(s, c, PublishCas(n, requeue, Head(s.shared), resume))
  }

  /** A pass of `add_awaiter` begins; the first one is its first access to the barrier. */
  function BeginPass(s: State, p: Progress): Progress {
    var n := |s.published|;
    if p.passes == 0 then p.(passes := 1, start := n, seen := n) else p.(passes := p.passes + 1)
  }

  /** The weak CAS of `add_awaiter`. */
  function AddPush(s: State, c: CallId, w: WaiterId, p: Progress, requeue: seq<WaiterId>, expected: Option<WaiterId>,
                   resume: seq<WaiterId>, spurious: bool): State {
    if !spurious && Head(s.shared) == expected
    then Become(s, c, AddCheck(w, p, resume)).(shared := requeue + s.shared)
    else Become(s, c, AddCas(w, p, requeue, Head(s.shared), resume))
  }

  /** Reload `_last_published` and compare it with the earliest target just put on the list. */
  function Check(s: State, c: CallId, w: WaiterId, p: Progress, resume: seq<WaiterId>): State
  {
    if Precedes(Wrap(Last(s)), p.earliest)
    then Become(s, c, Resuming(Some(w), Last(s), resume, false))
    else Become(s, c, AddExchange(w, p.(seen := |s.published|), Last(s), resume))
  }

  function WriteKnown(s: State, c: CallId, client: Option<WaiterId>, n: int, resume: seq<WaiterId>): State
    requires resume != [] && resume[0] in s.waiters
  {
    var w := resume[0];
    Become(s.(waiters := s.waiters[w := s.waiters[w].(lastKnown := n)]), c, Resuming(client, n, resume, true))
  }

  /** `resume`: exchange the flag, and continue the coroutine when the flag was already set. */
  function HandOver(s: State, c: CallId, client: Option<WaiterId>, n: int, resume: seq<WaiterId>): State
    requires resume != [] && resume[0] in s.waiters
  {
    var w := resume[0];
    var was := s.waiters[w];
    var op := was.(flag := true, handed := true, continued := was.continued + if was.flag then 1 else 0);
    Become(s.(waiters := s.waiters[w := op]), c, Resuming(client, n, resume[1..], false))
  }

  /** The resume loop: write the number, then call `resume`, waiter by waiter. */
  function Resume(s: State, c: CallId, client: Option<WaiterId>, n: int, resume: seq<WaiterId>, written: bool): State {
    if resume == [] then
      if client.None? then Finish(s, c) else Become(s, c, Asking(client.value))
    else if resume[0] !in s.waiters then s
    else if !written then WriteKnown(s, c, client, n, resume)
    else HandOver(s, c, client, n, resume)
  }

  function PublishSplit(s: State, c: CallId, n: int): State {
    var requeue := Filter(s.shared, PublishPending(s, n));
    var resume := Filter(s.shared, PublishReached(s, n));
    var taken := s.(shared := []);
    if requeue == [] then Become(taken, c, Resuming(None, n, resume, false))
    else Become(taken, c, PublishCas(n, requeue, None, resume))
  }

  function AfterAddSplit(s: State, w: WaiterId, p: Progress, n: int, resume: seq<WaiterId>): Call {
    var requeue := Filter(s.shared, AddPending(s, n));
    var reached := resume + Filter(s.shared, AddReached(s, n));
    if requeue == [] then Resuming(Some(w), n, reached, false)
    else
      var d := MinDifference(s, requeue, n);
      AddLoad(w, p.(earliest := Wrap(Wrap(n) + d), floor := n + d), requeue, reached)
  }

  function AddSplit(s: State, c: CallId, w: WaiterId, p: Progress, n: int, resume: seq<WaiterId>): State {
    Become(s.(shared := []), c, AfterAddSplit(s, w, p, n, resume))
  }

  /** The exchange of `await_suspend`, which continues its own coroutine when the flag was already set. */
  function Ask(s: State, c: CallId, w: WaiterId): State
    requires w in s.waiters
  {
    var was := s.waiters[w];
    var op := was.(flag := true, asked := true, continued := was.continued + if was.flag then 1 else 0);
    Finish(s.(waiters := s.waiters[w := op]), c)
  }

  /** One atomic access of the call, with the private work up to the next one. */
  function ApplyAdvance(s: State, c: CallId, spurious: bool): State
    requires c in s.calls
  {
    match s.calls[c]
    case PublishLoad(n) =>
      if s.shared == [] then Finish(s, c) else Become(s, c, PublishExchange(n))
    case PublishExchange(n) =>
      if s.shared == [] then Finish(s, c) else PublishSplit(s, c, n)
    case PublishCas(n, requeue, expected, resume) => PublishPush(s, c, n, requeue, expected, resume, spurious)
    case AddLoad(w, p, requeue, resume) => Become(s, c, AddCas(w, BeginPass(s, p), requeue, Head(s.shared), resume))
    case AddCas(w, p, requeue, expected, resume) => AddPush(s, c, w, p, requeue, expected, resume, spurious)
    case AddCheck(w, p, resume) => Check(s, c, w, p, resume)
    case AddExchange(w, p, n, resume) => AddSplit(s, c, w, p, n, resume)
    case Resuming(client, n, resume, written) => Resume(s, c, client, n, resume, written)
    case Asking(w) => if w in s.waiters then Ask(s, c, w) else s
  }

  function Apply(s: State, a: Action): State
  {
    match a
    case Publish(c, n) => s.(published := s.published + [n], calls := s.calls[c := PublishLoad(n)])
    case Await(w, c, t) => ApplyAwait(s, w, c, t)
    case Advance(c, spurious) => if c in s.calls then ApplyAdvance(s, c, spurious) else s
  }

  ghost predicate Enabled(s: State, a: Action) {
    && s.published != []
    && match a
       case Publish(c, n) =>
         && c !in s.calls
         && n >= Last(s)
         && (forall d | d in s.calls :: !Producing(s.calls[d]))
         && InWindow(Apply(s, a))
       case Await(w, c, t) =>
         && w !in s.waiters
         && c !in s.calls
         && -HALF < t - Last(s) < HALF
         && InWindow(Apply(s, a))
       case Advance(c, _) => c in s.calls
  }

  function Initial(first: int): State {
    State([first], [], map[], map[])
  }

  /** The actions, taken in order, lead from `s` to `t`. */
  ghost predicate Leads(s: State, actions: seq<Action>, t: State)
    decreases |actions|
  {
    if actions == [] then s == t
    else Enabled(s, actions[0]) && Leads(Apply(s, actions[0]), actions[1..], t)
  }

  /** `s` is reached from a barrier constructed with `first` by the actions. */
  ghost predicate Reaches(first: int, actions: seq<Action>, s: State) {
    Leads(Initial(first), actions, s)
  }
}
