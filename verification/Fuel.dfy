/**
 Fuel metering of one guest run (src/sandbox/host_api and the store set-up and
 read-out in src/sandbox/sandbox_wasmtime.rs). A guest run is a sequence of
 events: stretches of guest code and host calls, where a mesh call holds the
 whole run of its callee. What the outside world decides (a send failing, a
 reply fitting its buffer, a cartridge trapping) is part of the event.
 */
module Fuel {
  import opened Words
  import opened Wrappers

  // ---------------------------------------------------------------------
  // Cartridges (src/cartridge.rs)
  // ---------------------------------------------------------------------

  datatype Trap = OutOfFuel | OverMemory | OtherTrap

  /** The shapes of a returned component value that the host tells apart. */
  datatype Val = OkString | OkOther | OkNone | ErrString | ErrOther | ErrNone | PlainString | OtherVal

  datatype CartridgeRun = NotCached | SetupFailed | Trapped(trap: Trap) | NoExecute | Returned(val: Val)

  datatype CartridgeResult =
    | Success(consumed: u64) | FuelExhausted | MemoryExceeded | CompilationFailed | InterfaceMismatch
    | ExecutionError(reported: u64) | RegistryError

  /** What `CartridgeManager::invoke` reports for a run that took `consumed` of its fuel. */
  function Report(run: CartridgeRun, consumed: u64): CartridgeResult {
    match run
    case NotCached => RegistryError
    case SetupFailed => ExecutionError(0)
    case Trapped(OutOfFuel) => FuelExhausted
    case Trapped(OverMemory) => MemoryExceeded
    case Trapped(OtherTrap) => ExecutionError(0)
    case NoExecute => InterfaceMismatch
    case Returned(OkString) => Success(consumed)
    case Returned(PlainString) => Success(consumed)
    case Returned(OtherVal) => InterfaceMismatch
    case Returned(_) => ExecutionError(consumed)
  }

  function Refund(result: CartridgeResult, given: u64): u64 {
    match result
    case Success(consumed) => SaturatingSub(given, consumed)
    case FuelExhausted => 0
    case MemoryExceeded => 0
    case CompilationFailed => given
    case InterfaceMismatch => given
    case ExecutionError(reported) => SaturatingSub(given, reported)
    case RegistryError => given
  }

  function ErrorCode(result: CartridgeResult): int {
    match result
    case Success(_) => 0
    case FuelExhausted => 1
    case MemoryExceeded => 1
    case CompilationFailed => 3
    case InterfaceMismatch => 4
    case ExecutionError(_) => 5
    case RegistryError => 6
  }

  /** Runs whose fuel the host gives back, or keeps, without regard to what was used. */
  predicate ChargedFlat(run: CartridgeRun) {
    run.Trapped? || run.NoExecute? || run == Returned(OtherVal) || run.NotCached? || run.SetupFailed?
  }

  /**
   The agent pays what the cartridge used, except that a cartridge out of fuel
   or memory costs all it was given, and one that traps otherwise, lacks its
   export or returns a wrong type costs nothing whatever it used.
   */
  lemma CartridgeChargeExact(run: CartridgeRun, given: u64, consumed: u64)
    requires consumed <= given
    ensures var charge := given - Refund(Report(run, consumed), given);
            && 0 <= charge <= given
            && (charge == consumed <==>
                  !ChargedFlat(run) || consumed == if run.Trapped? && !run.trap.OtherTrap? then given else 0)
  {
  }

  // ---------------------------------------------------------------------
  // Events
  // ---------------------------------------------------------------------

  /** What `write_response` did. */
  datatype Reply = Written | TooSmall | Fault

  /**
   `BadArgument` is a host call stopped before it touches fuel, `Uncharged` one
   that answers without touching it.
   */
  datatype Event =
    | Guest(burn: nat)
    | BadArgument
    | Uncharged(code: int)
    | InvokeComponent(asked: i64, run: CartridgeRun, used: u64, reply: Reply)
    | Invoke(asked: i64, callee: Callee, reply: Reply)
    | Withdraw(amount: i64, sent: bool)
    | Pay(amount: i64, sent: bool)
    | Fork(amount: i64, sent: bool)
    | Fetch(requestSize: nat, withinQuota: bool, responseSize: nat, success: bool, reply: Reply)
    | Remember(dim: nat)
    | Recall(dim: nat, reply: Reply)
    | ModelLoad(loaded: bool)
    | Predict(tokens: nat, reply: Reply)

  /**
   How a mesh call ends for the host, with what the callee did first: no reply
   came back; the execution was given up (no such alias, or the start code
   trapped, memory would not grow, the workspace was not captured); or it ran.
   */
  datatype Callee = NoAnswer(events: Events) | GivenUp(events: Events) | Ran(success: bool, events: Events)

  datatype Events = Done | Then(first: Event, rest: Events)

  /** A host call returns a code to the guest, or stops it. */
  datatype Outcome = Code(code: int) | Stopped

  /** Where the fuel went. Guest code and cartridges use it up; `burned` is what callees used. */
  datatype Spent = Spent(guest: nat, cartridges: nat, burned: nat, withdrawn: nat, paid: nat, forked: nat, charged: nat)

  function Total(s: Spent): nat {
    s.guest + s.cartridges + s.burned + s.withdrawn + s.paid + s.forked + s.charged
  }

  const NOTHING := Spent(0, 0, 0, 0, 0, 0, 0)

  datatype Meter = Meter(fuel: u64, toBurn: u64, spent: Spent)

  function ReplyCode(reply: Reply, code: int): Outcome {
    match reply
    case Written => Code(code)
    case TooSmall => Code(2)
    case Fault => Stopped
  }

  // ---------------------------------------------------------------------
  // Host calls
  // ---------------------------------------------------------------------

  /** Charges up to what is there. */
  function Deduct(m: Meter, cost: nat): Meter {
    var charge := if m.fuel < cost then m.fuel else cost;
    m.(fuel := m.fuel - charge, spent := m.spent.(charged := m.spent.charged + charge))
  }

  function PreflightCost(requestSize: nat): nat {
    50_000 + (requestSize / 1024) * 10
  }

  function ResponseCost(responseSize: nat): nat {
    (responseSize / 1024) * 10
  }

  function PredictCost(tokens: nat): nat {
    tokens * 30 + 5_000
  }

  const MODEL_LOAD_COST := 10_000

  function DoGuest(m: Meter, burn: nat): (Meter, Outcome) {
    var used := if burn > m.fuel then m.fuel else burn;
    (m.(fuel := m.fuel - used, spent := m.spent.(guest := m.spent.guest + used)),
     if burn > m.fuel then Stopped else Code(0))
  }

  function DoCartridge(m: Meter, asked: i64, run: CartridgeRun, used: u64, reply: Reply): (Meter, Outcome) {
    var given := AsU64(asked);
    if given > m.fuel then (m, Code(1))
    else
      var result := Report(run, if used <= given then used else given);
      var charge := given - Refund(result, given);
      (m.(fuel := m.fuel - charge, spent := m.spent.(cartridges := m.spent.cartridges + charge)),
       if result.Success? then ReplyCode(reply, 0) else Code(ErrorCode(result)))
  }

  /** How much of the caller's fuel the callee gets to run with. */
  function Transferred(m: Meter, asked: i64): u64 {
    if AsU64(asked) > m.fuel then m.fuel else AsU64(asked)
  }

  /** The burn comes after the reply is written: a faulting reply pointer skips it. */
  function DoInvoke(m: Meter, used: u64, success: bool, reply: Reply): (Meter, Outcome) {
    var owed := WrappingAdd(m.toBurn, used);
    if reply.Fault? then (m.(toBurn := owed), Stopped)
    else
      var burned := if owed <= m.fuel then owed else m.fuel;
      (Meter(m.fuel - burned, 0, m.spent.(burned := m.spent.burned + burned)),
       ReplyCode(reply, if success then 0 else 3))
  }

  function DoWithdraw(m: Meter, amount: u64, sent: bool): (Meter, Outcome) {
    if amount > m.fuel then (m, Code(5))
    else if !sent then (m, Code(6))
    else (m.(fuel := m.fuel - amount, spent := m.spent.(withdrawn := m.spent.withdrawn + amount)), Code(0))
  }

  function DoPay(m: Meter, amount: u64): (Meter, Outcome) {
    if amount > m.fuel then (m, Code(5))
    else (m.(fuel := m.fuel - amount, spent := m.spent.(paid := m.spent.paid + amount)), Code(0))
  }

  function DoFork(m: Meter, amount: u64): (Meter, Outcome) {
    if amount > m.fuel then (m, Code(5))
    else (m.(fuel := m.fuel - amount, spent := m.spent.(forked := m.spent.forked + amount)), Code(0))
  }

  function DoFetch(m: Meter, requestSize: nat, withinQuota: bool, responseSize: nat, success: bool, reply: Reply)
    : (Meter, Outcome)
  {
    var asked := Deduct(m, PreflightCost(requestSize));
    if !withinQuota then (asked, Code(8))
    else (Deduct(asked, ResponseCost(responseSize)), if success then ReplyCode(reply, 0) else Code(6))
  }

  function Do(m: Meter, e: Event): (Meter, Outcome)
    decreases e, 0
  {
    match e
    case Guest(burn) => DoGuest(m, burn)
    case BadArgument => (m, Stopped)
    case Uncharged(code) => (m, Code(code))
    case InvokeComponent(asked, run, used, reply) => DoCartridge(m, asked, run, used, reply)
    case Invoke(asked, NoAnswer(_), _) => (m, Code(4))
    case Invoke(asked, GivenUp(_), reply) => DoInvoke(m, 0, false, reply)
    case Invoke(asked, Ran(success, events), reply) =>
      DoInvoke(m, Consumed(Transferred(m, asked), events), success, reply)
    case Withdraw(amount, sent) => DoWithdraw(m, AsU64(amount), sent)
    case Pay(amount, _) => DoPay(m, AsU64(amount))
    case Fork(amount, _) => DoFork(m, AsU64(amount))
    case Fetch(requestSize, withinQuota, responseSize, success, reply) =>
      DoFetch(m, requestSize, withinQuota, responseSize, success, reply)
    case Remember(dim) => (Deduct(m, 500 + dim * 5), Code(0))
    case Recall(dim, reply) => (Deduct(m, 100 + dim * 2), ReplyCode(reply, 0))
    case ModelLoad(loaded) => (Deduct(m, MODEL_LOAD_COST), Code(if loaded then 0 else 3))
    case Predict(tokens, reply) => (Deduct(m, PredictCost(tokens)), ReplyCode(reply, 0))
  }

  /** A run ends with its events or at the first one that stops the guest. */
  function Run(m: Meter, events: Events): Meter
    decreases events, 0
  {
    match events
    case Done => m
    case Then(e, rest) =>
      var (next, outcome) := Do(m, e);
      if outcome.Stopped? then next else Run(next, rest)
  }

  function Started(allotted: u64): Meter {
    Meter(allotted, 0, NOTHING)
  }

  /** `fuel_consumed`, as the unchecked subtraction leaves it. */
  function Consumed(allotted: u64, events: Events): u64
    decreases events, 1
  {
    WrappingSub(allotted, Run(Started(allotted), events).fuel)
  }

  // ---------------------------------------------------------------------
  // Conservation over a run
  // ---------------------------------------------------------------------

  ghost predicate Conserves(m: Meter, n: Meter) {
    n.fuel <= m.fuel && n.fuel + Total(n.spent) == m.fuel + Total(m.spent)
  }

  lemma DeductConserves(m: Meter, cost: nat)
    ensures Conserves(m, Deduct(m, cost)) && Deduct(m, cost).toBurn == m.toBurn
  {
  }

  lemma CallsConserve(m: Meter, e: Event)
    requires m.toBurn == 0 && !e.Invoke?
    ensures Conserves(m, Do(m, e).0) && Do(m, e).0.toBurn == 0
  {
    match e
    case Guest(_) =>
    case BadArgument =>
    case Uncharged(_) =>
    case InvokeComponent(asked, run, used, reply) =>
    case Withdraw(_, _) =>
    case Pay(_, _) =>
    case Fork(_, _) =>
    case Fetch(requestSize, _, responseSize, _, _) =>
      DeductConserves(m, PreflightCost(requestSize));
      DeductConserves(Deduct(m, PreflightCost(requestSize)), ResponseCost(responseSize));
    case Remember(dim) => DeductConserves(m, 500 + dim * 5);
    case Recall(dim, _) => DeductConserves(m, 100 + dim * 2);
    case ModelLoad(_) => DeductConserves(m, MODEL_LOAD_COST);
    case Predict(tokens, _) => DeductConserves(m, PredictCost(tokens));
  }

  lemma InvokeConserves(m: Meter, used: u64, success: bool, reply: Reply)
    requires m.toBurn == 0 && used <= m.fuel
    ensures Conserves(m, DoInvoke(m, used, success, reply).0)
    ensures !reply.Fault? ==> DoInvoke(m, used, success, reply).0.toBurn == 0
    ensures reply.Fault? <==> DoInvoke(m, used, success, reply).1.Stopped?
    ensures DoInvoke(m, used, success, reply).0.fuel == m.fuel - (if reply.Fault? then 0 else used)
  {
  }

  lemma DoOfInvoke(m: Meter, asked: i64, success: bool, events: Events, reply: Reply)
    ensures Do(m, Invoke(asked, Ran(success, events), reply))
         == DoInvoke(m, Consumed(Transferred(m, asked), events), success, reply)
  {
  }

  lemma ConsumedOfRun(allotted: u64, events: Events)
    requires Run(Started(allotted), events).fuel <= allotted
    ensures Consumed(allotted, events) == allotted - Run(Started(allotted), events).fuel
  {
  }

  lemma RanConserves(m: Meter, asked: i64, success: bool, events: Events, reply: Reply)
    requires m.toBurn == 0
    requires Conserves(Started(Transferred(m, asked)), Run(Started(Transferred(m, asked)), events))
    ensures var (m', o) := Do(m, Invoke(asked, Ran(success, events), reply));
            Conserves(m, m') && (!o.Stopped? ==> m'.toBurn == 0)
  {
    var share := Transferred(m, asked);
    ConsumedOfRun(share, events);
    DoOfInvoke(m, asked, success, events, reply);
    InvokeConserves(m, Consumed(share, events), success, reply);
  }

  lemma {:induction false} DoConserves(m: Meter, e: Event)
    requires m.toBurn == 0
    ensures Conserves(m, Do(m, e).0)
    ensures !Do(m, e).1.Stopped? ==> Do(m, e).0.toBurn == 0
    decreases e
  {
    if e.Invoke? {
      match e.callee
      case NoAnswer(_) =>
      case GivenUp(_) => InvokeConserves(m, 0, false, e.reply);
      case Ran(success, events) =>
        RunConserves(Started(Transferred(m, e.asked)), events);
        RanConserves(m, e.asked, success, events, e.reply);
    } else {
      CallsConserve(m, e);
    }
  }

  /** No event ever gives fuel back beyond what it took, and all that is gone is accounted for. */
  lemma {:induction false} RunConserves(m: Meter, events: Events)
    requires m.toBurn == 0
    ensures Conserves(m, Run(m, events))
    decreases events
  {
    match events
    case Done =>
    case Then(e, rest) =>
      DoConserves(m, e);
      if !Do(m, e).1.Stopped? {
        RunConserves(Do(m, e).0, rest);
      }
  }

  /** The unchecked subtraction never underflows, and gives exactly what the run paid out, used and burned. */
  lemma ConsumedIsSpent(allotted: u64, events: Events)
    ensures Run(Started(allotted), events).fuel <= allotted
    ensures Consumed(allotted, events) == allotted - Run(Started(allotted), events).fuel
    ensures Consumed(allotted, events) == Total(Run(Started(allotted), events).spent)
  {
    RunConserves(Started(allotted), events);
    ConsumedOfRun(allotted, events);
  }

  lemma ConsumedAtMost(allotted: u64, events: Events)
    ensures Consumed(allotted, events) <= allotted
  {
    ConsumedIsSpent(allotted, events);
  }

  /** A call whose callee ran is billed by `burn_fuel`, which runs only if the reply could be written. */
  predicate Billed(callee: Callee, reply: Reply) {
    callee.Ran? && !reply.Fault?
  }

  /** What a guest asks for, read as unsigned, or what its caller has if that is less. */
  function Least(asked: i64, fuel: u64): u64 {
    var amount := if asked < 0 then asked + 0x1_0000_0000_0000_0000 else asked;
    if amount <= fuel then amount else fuel
  }

  /**
   A callee runs on the lesser of the amount asked for and the caller's fuel. A
   billed one is charged exactly as used, and the caller still has that much; any
   other costs nothing.
   */
  lemma BurnIsExact(m: Meter, asked: i64, callee: Callee, reply: Reply)
    requires m.toBurn == 0
    ensures Consumed(Least(asked, m.fuel), callee.events) <= Least(asked, m.fuel)
    ensures Do(m, Invoke(asked, callee, reply)).0.fuel
         == m.fuel - if Billed(callee, reply) then Consumed(Least(asked, m.fuel), callee.events) else 0
  {
    assert Transferred(m, asked) == Least(asked, m.fuel);
    ConsumedAtMost(Transferred(m, asked), callee.events);
    match callee
    case NoAnswer(_) =>
    case GivenUp(_) => InvokeConserves(m, 0, false, reply);
    case Ran(success, events) =>
      DoOfInvoke(m, asked, success, events, reply);
      InvokeConserves(m, Consumed(Transferred(m, asked), events), success, reply);
  }

  /**
   A callee that burns `burn` and ends costs its caller the least of that, the
   amount asked for and what the caller has; no callee costs more than was asked.
   */
  lemma CalleeCostsTheLeast(m: Meter, asked: i64, burn: nat, success: bool, reply: Reply)
    requires m.toBurn == 0 && !reply.Fault?
    ensures var share := Least(asked, m.fuel);
            Do(m, Invoke(asked, Ran(success, Then(Guest(burn), Done)), reply)).0.fuel
            == m.fuel - if burn <= share then burn else share
  {
    var share := Least(asked, m.fuel);
    BurnIsExact(m, asked, Ran(success, Then(Guest(burn), Done)), reply);
    var (after, outcome) := Do(Started(share), Guest(burn));
    assert Run(after, Done) == after;
    ConsumedIsSpent(share, Then(Guest(burn), Done));
  }

  /** A caller with 100 that asks for 10 is left with 90, whatever its callee would burn beyond. */
  lemma ClampExample()
    ensures Consumed(100, Then(Invoke(10, Ran(false, Then(Guest(50), Done)), Written), Done)) == 10
  {
    var e := Invoke(10, Ran(false, Then(Guest(50), Done)), Written);
    CalleeCostsTheLeast(Started(100), 10, 50, false, Written);
    assert Run(Do(Started(100), e).0, Done) == Do(Started(100), e).0;
  }

  // ---------------------------------------------------------------------
  // What the guest is told
  // ---------------------------------------------------------------------

  /** Guest code that burns more than there is loses all of it and is stopped. */
  lemma GuestStopsIff(m: Meter, burn: nat)
    ensures Do(m, Guest(burn)).1.Stopped? <==> burn > m.fuel
    ensures Do(m, Guest(burn)).0.fuel == if burn > m.fuel then 0 else m.fuel - burn
  {
  }

  /** How a reply that is to be written changes the answer: a bad pointer stops the guest. */
  predicate Replied(o: Outcome, reply: Reply, code: int) {
    && (o.Stopped? <==> reply.Fault?)
    && (reply.TooSmall? ==> o == Code(2))
    && (reply.Written? ==> o == Code(code))
  }

  /**
   A mesh call answers 4 exactly when no reply came, leaving the caller as it
   was; any other reply is written, and the code behind it is 0 exactly for a
   callee that ran to success.
   */
  lemma MeshCallAnswers(m: Meter, asked: i64, callee: Callee, reply: Reply)
    ensures var (m', o) := Do(m, Invoke(asked, callee, reply));
            && (o == Code(4) <==> callee.NoAnswer?)
            && (callee.NoAnswer? ==> m' == m)
            && (!callee.NoAnswer? ==> Replied(o, reply, if callee.Ran? && callee.success then 0 else 3))
  {
    if callee.Ran? {
      DoOfInvoke(m, asked, callee.success, callee.events, reply);
    }
  }

  /** Withdrawals, payments and forks: 5 exactly when the amount is not there, 6 only for a withdrawal not sent. */
  lemma TransfersAnswer(m: Meter, amount: i64, sent: bool)
    ensures var there := Least(amount, m.fuel) == AsU64(amount);
            forall e <- {Withdraw(amount, sent), Pay(amount, sent), Fork(amount, sent)} ::
              var (m', o) := Do(m, e);
              && o == Code(if !there then 5 else if e.Withdraw? && !sent then 6 else 0)
              && m'.fuel == m.fuel - if o == Code(0) then Least(amount, m.fuel) else 0
  {
  }

  /** A component call succeeds exactly when the component returned a string, bare or as its result. */
  lemma ComponentAnswers(m: Meter, asked: i64, run: CartridgeRun, used: u64, reply: Reply)
    ensures var o := Do(m, InvokeComponent(asked, run, used, reply)).1;
            var there := Least(asked, m.fuel) == AsU64(asked);
            && (there && run in {Returned(OkString), Returned(PlainString)} ==> Replied(o, reply, 0))
            && (!there || run !in {Returned(OkString), Returned(PlainString)} ==>
                  && o.Code? && o.code in {1, 4, 5, 6}
                  && (o == Code(1) <==> !there || run in {Trapped(OutOfFuel), Trapped(OverMemory)})
                  && (o == Code(4) <==> there && run in {NoExecute, Returned(OtherVal)})
                  && (o == Code(6) <==> there && run.NotCached?))
  {
  }

  /** Metered calls answer alike with and without fuel: 8 over the quota, 6 for a failed fetch, 3 for no model. */
  lemma MeteredCallsAnswer(m: Meter, requestSize: nat, responseSize: nat, success: bool, size: nat, reply: Reply)
    ensures Do(m, Fetch(requestSize, false, responseSize, success, reply)).1 == Code(8)
    ensures var o := Do(m, Fetch(requestSize, true, responseSize, success, reply)).1;
            if success then Replied(o, reply, 0) else o == Code(6)
    ensures Do(m, Remember(size)).1 == Code(0) && Do(m, ModelLoad(success)).1 == Code(if success then 0 else 3)
    ensures Replied(Do(m, Recall(size, reply)).1, reply, 0) && Replied(Do(m, Predict(size, reply)).1, reply, 0)
  {
  }

  /** One of each metered call, with enough fuel for it. */
  lemma PriceListExample(m: Meter)
    requires m.fuel >= 100_000
    ensures m.fuel - Do(m, Fetch(2048, true, 3072, true, Written)).0.fuel == 50_020 + 30
    ensures m.fuel - Do(m, Remember(3)).0.fuel == 515 && m.fuel - Do(m, Recall(3, Written)).0.fuel == 106
    ensures m.fuel - Do(m, ModelLoad(true)).0.fuel == 10_000 && m.fuel - Do(m, Predict(2, Written)).0.fuel == 5_060
  {
  }

  // ---------------------------------------------------------------------
  // The calls of a run
  // ---------------------------------------------------------------------

  /** One event and the meter it found. */
  datatype Call = Call(m: Meter, e: Event)

  function Own(m: Meter, events: Events): seq<Call>
    decreases events
  {
    match events
    case Done => []
    case Then(e, rest) => [Call(m, e)] + if Do(m, e).1.Stopped? then [] else Own(Do(m, e).0, rest)
  }

  function SumOf(cs: seq<Call>, f: Call -> nat): nat {
    if cs == [] then 0 else f(cs[0]) + SumOf(cs[1..], f)
  }

  lemma {:induction false} SumConcat(a: seq<Call>, b: seq<Call>, f: Call -> nat)
    ensures SumOf(a + b, f) == SumOf(a, f) + SumOf(b, f)
  {
    if a == [] {
      assert a + b == b;
    } else {
      TailOfConcat(a, b);
      SumConcat(a[1..], b, f);
    }
  }

  lemma {:induction false} SumIsZeroIff(cs: seq<Call>, f: Call -> nat)
    ensures SumOf(cs, f) == 0 <==> forall c <- cs :: f(c) == 0
  {
    if cs != [] {
      SumIsZeroIff(cs[1..], f);
      assert forall c :: c in cs <==> c == cs[0] || c in cs[1..];
    }
  }

  lemma {:induction false} SumSplits(cs: seq<Call>, f: Call -> nat, g: Call -> nat, rest: Call -> nat)
    requires forall c <- cs :: f(c) == g(c) + rest(c)
    ensures SumOf(cs, f) == SumOf(cs, g) + SumOf(cs, rest)
  {
    if cs != [] {
      SumSplits(cs[1..], f, g, rest);
    }
  }

  lemma OwnUnfolds(m: Meter, e: Event, rest: Events, f: Call -> nat)
    ensures SumOf(Own(m, Then(e, rest)), f)
         == f(Call(m, e)) + if Do(m, e).1.Stopped? then 0 else SumOf(Own(Do(m, e).0, rest), f)
  {
    var more := if Do(m, e).1.Stopped? then [] else Own(Do(m, e).0, rest);
    assert ([Call(m, e)] + more)[1..] == more;
  }

  // ---------------------------------------------------------------------
  // Metered calls are served whether or not they are paid for
  // ---------------------------------------------------------------------

  /** The price list: what the host asks for an event, before looking at the meter. */
  function Price(e: Event): nat {
    match e
    case Fetch(requestSize, withinQuota, responseSize, _, _) =>
      PreflightCost(requestSize) + if withinQuota then ResponseCost(responseSize) else 0
    case Remember(dim) => 500 + dim * 5
    case Recall(dim, _) => 100 + dim * 2
    case ModelLoad(_) => MODEL_LOAD_COST
    case Predict(tokens, _) => PredictCost(tokens)
    case _ => 0
  }

  function PriceOf(c: Call): nat {
    Price(c.e)
  }

  function ChargeOf(c: Call): nat {
    if Price(c.e) <= c.m.fuel then Price(c.e) else c.m.fuel
  }

  /** What a call was let off because the meter ran out. */
  function LetOff(c: Call): nat {
    Price(c.e) - ChargeOf(c)
  }

  lemma ChargeIsMetered(m: Meter, e: Event)
    ensures Do(m, e).0.spent.charged == m.spent.charged + ChargeOf(Call(m, e))
  {
  }

  lemma {:induction false} ChargesAddUp(m: Meter, events: Events)
    ensures Run(m, events).spent.charged == m.spent.charged + SumOf(Own(m, events), ChargeOf)
    decreases events
  {
    match events
    case Done =>
    case Then(e, rest) =>
      OwnUnfolds(m, e, rest, ChargeOf);
      ChargeIsMetered(m, e);
      if !Do(m, e).1.Stopped? {
        ChargesAddUp(Do(m, e).0, rest);
      }
  }

  /**
   Fetches, memory calls and model calls charge the price list of the run in
   full exactly when none of them found less fuel than its price. One that did
   was answered all the same: what it answers does not depend on the meter.
   */
  lemma ListPriceIsPaidIff(m: Meter, events: Events)
    ensures Run(m, events).spent.charged - m.spent.charged <= SumOf(Own(m, events), PriceOf)
    ensures Run(m, events).spent.charged - m.spent.charged == SumOf(Own(m, events), PriceOf)
       <==> forall c <- Own(m, events) :: Price(c.e) <= c.m.fuel
    ensures forall e, other: Meter :: Price(e) > 0 ==> Do(m, e).1 == Do(other, e).1
  {
    var own := Own(m, events);
    ChargesAddUp(m, events);
    SumSplits(own, PriceOf, ChargeOf, LetOff);
    SumIsZeroIff(own, LetOff);
    assert forall c <- own :: LetOff(c) == 0 <==> Price(c.e) <= c.m.fuel;
  }

  // ---------------------------------------------------------------------
  // Debits and what the network gets
  // ---------------------------------------------------------------------

  /** The amount of a withdrawal, payment or fork that was answered with 0. */
  function Granted(c: Call): nat {
    if Do(c.m, c.e).1 != Code(0) then 0
    else
      match c.e
      case Withdraw(amount, _) => AsU64(amount)
      case Pay(amount, _) => AsU64(amount)
      case Fork(amount, _) => AsU64(amount)
      case _ => 0
  }

  predicate WasSent(e: Event) {
    match e
    case Withdraw(_, sent) => sent
    case Pay(_, sent) => sent
    case Fork(_, sent) => sent
    case _ => true
  }

  function Sent(c: Call): nat {
    if WasSent(c.e) then Granted(c) else 0
  }

  function Vanished(c: Call): nat {
    if WasSent(c.e) then 0 else Granted(c)
  }

  function Debited(s: Spent): nat {
    s.withdrawn + s.paid + s.forked
  }

  lemma GrantIsDebited(m: Meter, e: Event)
    ensures Debited(Do(m, e).0.spent) == Debited(m.spent) + Granted(Call(m, e))
  {
  }

  lemma {:induction false} GrantsAddUp(m: Meter, events: Events)
    ensures Debited(Run(m, events).spent) == Debited(m.spent) + SumOf(Own(m, events), Granted)
    decreases events
  {
    match events
    case Done =>
    case Then(e, rest) =>
      OwnUnfolds(m, e, rest, Granted);
      GrantIsDebited(m, e);
      if !Do(m, e).1.Stopped? {
        GrantsAddUp(Do(m, e).0, rest);
      }
  }

  /**
   Over a whole run, the fuel debited is what the guest was told had left. All
   of it went out over the mesh exactly when no payment or fork was answered
   with 0 although its send failed; a failed withdrawal never loses any.
   */
  lemma DebitsWentOutIff(m: Meter, events: Events)
    ensures Debited(Run(m, events).spent) - Debited(m.spent) == SumOf(Own(m, events), Granted)
    ensures SumOf(Own(m, events), Granted) == SumOf(Own(m, events), Sent)
       <==> forall c <- Own(m, events) ::
              (c.e.Pay? || c.e.Fork?) && !c.e.sent ==> AsU64(c.e.amount) == 0 || AsU64(c.e.amount) > c.m.fuel
  {
    var own := Own(m, events);
    GrantsAddUp(m, events);
    SumSplits(own, Granted, Sent, Vanished);
    SumIsZeroIff(own, Vanished);
    forall c <- own ensures Vanished(c) == 0
      <==> ((c.e.Pay? || c.e.Fork?) && !c.e.sent ==> AsU64(c.e.amount) == 0 || AsU64(c.e.amount) > c.m.fuel)
    {
      VanishedIff(c);
    }
  }

  lemma VanishedIff(c: Call)
    ensures Vanished(c) == 0
       <==> ((c.e.Pay? || c.e.Fork?) && !c.e.sent ==> AsU64(c.e.amount) == 0 || AsU64(c.e.amount) > c.m.fuel)
  {
  }

  // ---------------------------------------------------------------------
  // Conservation over a tree of calls
  // ---------------------------------------------------------------------

  /** Every event the run reaches, its own and those of its callees at any depth. */
  function Tree(m: Meter, events: Events): seq<Call>
    decreases events
  {
    match events
    case Done => []
    case Then(e, rest) => Branch(m, e) + if Do(m, e).1.Stopped? then [] else Tree(Do(m, e).0, rest)
  }

  function Branch(m: Meter, e: Event): seq<Call>
    decreases e
  {
    match e
    case Invoke(asked, callee, _) => [Call(m, e)] + Tree(Started(Transferred(m, asked)), callee.events)
    case _ => [Call(m, e)]
  }

  /** What a cartridge really used. */
  function CartridgeUse(c: Call): nat
    requires c.e.InvokeComponent?
  {
    var given := AsU64(c.e.asked);
    if given > c.m.fuel || c.e.run.NotCached? then 0 else if c.e.used <= given then c.e.used else given
  }

  function Gone(c: Call): nat {
    if Do(c.m, c.e).0.fuel <= c.m.fuel then c.m.fuel - Do(c.m, c.e).0.fuel else 0
  }

  /** Fuel used or given away in the event itself; what a callee uses is counted in its own events. */
  function Used(c: Call): nat {
    match c.e
    case Invoke(_, _, _) => 0
    case InvokeComponent(_, _, _, _) => CartridgeUse(c)
    case _ => Gone(c)
  }

  /** Fuel used below the event that its caller is not charged for. */
  function Unbilled(c: Call): nat {
    match c.e
    case Invoke(asked, callee, reply) =>
      if Billed(callee, reply) then 0 else Consumed(Transferred(c.m, asked), callee.events)
    case InvokeComponent(_, _, _, _) => if Gone(c) <= CartridgeUse(c) then CartridgeUse(c) - Gone(c) else 0
    case _ => 0
  }

  /** Fuel its caller is charged that the event did not use. */
  function Overbilled(c: Call): nat {
    if c.e.InvokeComponent? && CartridgeUse(c) <= Gone(c) then Gone(c) - CartridgeUse(c) else 0
  }

  lemma {:induction false} BranchIsBilled(m: Meter, e: Event)
    requires m.toBurn == 0
    ensures m.fuel - Do(m, e).0.fuel + SumOf(Branch(m, e), Unbilled)
         == SumOf(Branch(m, e), Used) + SumOf(Branch(m, e), Overbilled)
    decreases e
  {
    DoConserves(m, e);
    match e
    case Invoke(asked, callee, reply) =>
      var share := Transferred(m, asked);
      BurnIsExact(m, asked, callee, reply);
      ConsumedIsSpent(share, callee.events);
      TreeIsBilled(Started(share), callee.events);
      CallAndBelow(m, e, Unbilled);
      CallAndBelow(m, e, Used);
      CallAndBelow(m, e, Overbilled);
    case _ =>
      LoneCall(m, e, Unbilled);
      LoneCall(m, e, Used);
      LoneCall(m, e, Overbilled);
  }

  lemma CallAndBelow(m: Meter, e: Event, f: Call -> nat)
    requires e.Invoke?
    ensures SumOf(Branch(m, e), f)
         == f(Call(m, e)) + SumOf(Tree(Started(Transferred(m, e.asked)), e.callee.events), f)
  {
    var below := Tree(Started(Transferred(m, e.asked)), e.callee.events);
    assert ([Call(m, e)] + below)[1..] == below;
  }

  lemma LoneCall(m: Meter, e: Event, f: Call -> nat)
    requires !e.Invoke?
    ensures SumOf(Branch(m, e), f) == f(Call(m, e))
  {
    assert [Call(m, e)][1..] == [];
  }

  lemma {:induction false} TreeIsBilled(m: Meter, events: Events)
    requires m.toBurn == 0
    ensures m.fuel - Run(m, events).fuel + SumOf(Tree(m, events), Unbilled)
         == SumOf(Tree(m, events), Used) + SumOf(Tree(m, events), Overbilled)
    decreases events
  {
    match events
    case Done =>
    case Then(e, rest) =>
      DoConserves(m, e);
      BranchIsBilled(m, e);
      if !Do(m, e).1.Stopped? {
        var next := Do(m, e).0;
        TreeIsBilled(next, rest);
        SumConcat(Branch(m, e), Tree(next, rest), Unbilled);
        SumConcat(Branch(m, e), Tree(next, rest), Used);
        SumConcat(Branch(m, e), Tree(next, rest), Overbilled);
      } else {
        assert Branch(m, e) + [] == Branch(m, e);
      }
  }

  /** A callee used fuel and was not billed, or a cartridge did and then failed in a way that costs nothing. */
  predicate IsUnderbilled(c: Call) {
    match c.e
    case Invoke(asked, callee, reply) =>
      Consumed(Transferred(c.m, asked), callee.events) > 0 && !Billed(callee, reply)
    case InvokeComponent(_, run, _, _) =>
      CartridgeUse(c) > 0 && run in {SetupFailed, Trapped(OtherTrap), NoExecute, Returned(OtherVal)}
    case _ => false
  }

  /** A cartridge ran out of fuel or memory with some of its fuel left. */
  predicate IsOverbilled(c: Call) {
    && c.e.InvokeComponent? && c.e.run in {Trapped(OutOfFuel), Trapped(OverMemory)}
    && CartridgeUse(c) < AsU64(c.e.asked) <= c.m.fuel
  }

  lemma UnbilledIff(c: Call)
    ensures Unbilled(c) > 0 <==> IsUnderbilled(c)
  {
    if c.e.InvokeComponent? {
      assert Gone(c) == c.m.fuel - DoCartridge(c.m, c.e.asked, c.e.run, c.e.used, c.e.reply).0.fuel;
    }
  }

  lemma OverbilledIff(c: Call)
    ensures Overbilled(c) > 0 <==> IsOverbilled(c)
  {
    if c.e.InvokeComponent? {
      assert Gone(c) == c.m.fuel - DoCartridge(c.m, c.e.asked, c.e.run, c.e.used, c.e.reply).0.fuel;
    }
  }

  lemma NothingUnbilledIff(cs: seq<Call>)
    ensures SumOf(cs, Unbilled) == 0 <==> forall c <- cs :: !IsUnderbilled(c)
  {
    SumIsZeroIff(cs, Unbilled);
    forall c <- cs ensures Unbilled(c) == 0 <==> !IsUnderbilled(c) {
      UnbilledIff(c);
    }
  }

  lemma NothingOverbilledIff(cs: seq<Call>)
    ensures SumOf(cs, Overbilled) == 0 <==> forall c <- cs :: !IsOverbilled(c)
  {
    SumIsZeroIff(cs, Overbilled);
    forall c <- cs ensures Overbilled(c) == 0 <==> !IsOverbilled(c) {
      OverbilledIff(c);
    }
  }

  /**
   The root's bill and all the fuel used anywhere below it differ by what was
   left unbilled and what was billed too much. Nothing is left unbilled exactly
   when every callee that used fuel ran to its end with a reply that could be
   written, and no cartridge that used fuel failed for free; nothing is billed
   too much exactly when no cartridge lost fuel it had not used.
   */
  lemma BillCoversTreeIff(allotted: u64, events: Events)
    ensures var tree := Tree(Started(allotted), events);
            && Consumed(allotted, events) + SumOf(tree, Unbilled) == SumOf(tree, Used) + SumOf(tree, Overbilled)
            && (SumOf(tree, Unbilled) == 0 <==> forall c <- tree :: !IsUnderbilled(c))
            && (SumOf(tree, Overbilled) == 0 <==> forall c <- tree :: !IsOverbilled(c))
  {
    ConsumedIsSpent(allotted, events);
    TreeIsBilled(Started(allotted), events);
    NothingUnbilledIff(Tree(Started(allotted), events));
    NothingOverbilledIff(Tree(Started(allotted), events));
  }

  /** A callee that uses 7 of its 10 is billed nothing when the reply pointer is bad or its start code then traps. */
  lemma LostBurnExamples()
    ensures var inner := Then(Guest(7), Done);
            && Consumed(10, inner) == 7
            && Consumed(100, Then(Invoke(10, Ran(true, inner), Fault), Done)) == 0
            && Consumed(100, Then(Invoke(10, GivenUp(inner), Written), Done)) == 0
            && Consumed(100, Then(Invoke(10, Ran(true, inner), Written), Done)) == 7
  {
    var inner := Then(Guest(7), Done);
    var m := Started(100);
    assert Transferred(m, 10) == 10;
    assert Do(Started(10), Guest(7)) == DoGuest(Started(10), 7);
    assert Run(Started(3).(spent := NOTHING.(guest := 7)), Done).fuel == 3;
    assert Run(Started(10), inner).fuel == 3;
    forall callee, reply | callee in {Ran(true, inner), GivenUp(inner)} && reply in {Fault, Written}
      ensures Run(m, Then(Invoke(10, callee, reply), Done)) == Do(m, Invoke(10, callee, reply)).0
    {
    }
    BurnIsExact(m, 10, Ran(true, inner), Fault);
    BurnIsExact(m, 10, Ran(true, inner), Written);
    BurnIsExact(m, 10, GivenUp(inner), Written);
  }

  // ---------------------------------------------------------------------
  // The code
  // ---------------------------------------------------------------------

  /** The store a guest runs in: its fuel, the pending burn, and (for specification only) where fuel went. */
  class Caller {
    var fuel: u64
    var fuelToBurn: u64
    ghost var spent: Spent

    ghost function Value(): Meter
      reads this
    {
      Meter(fuel, fuelToBurn, spent)
    }

    constructor (allotted: u64)
      ensures Value() == Started(allotted)
    {
      fuel, fuelToBurn, spent := allotted, 0, NOTHING;
    }

    method DeductFuel(amount: nat)
      modifies this
      ensures Value() == Deduct(old(Value()), amount)
    {
      var current := fuel;
      spent := spent.(charged := spent.charged + if current < amount then current else amount);
      if current < amount {
        fuel := 0;
        return;
      }
      fuel := current - amount;
    }

    method RefundFuel(given: u64, consumed: u64)
      requires fuel + SaturatingSub(given, consumed) < U64
      modifies this`fuel
      ensures fuel == old(fuel) + SaturatingSub(given, consumed)
    {
      var refund := SaturatingSub(given, consumed);
      if refund > 0 {
        fuel := fuel + refund;
      }
    }

    /** Reserve, run, refund. `used` is what the cartridge took of the fuel it was given. */
    method InvokeComponent(asked: i64, run: CartridgeRun, used: u64, reply: Reply) returns (r: Outcome)
      modifies this
      ensures (Value(), r) == Do(old(Value()), Event.InvokeComponent(asked, run, used, reply))
    {
      var given := AsU64(asked);
      var maxFuel := fuel;
      if given > maxFuel {
        return Code(1);
      }
      fuel := maxFuel - given;
      var result := Report(run, if used <= given then used else given);
      match result {
        case Success(consumed) =>
          RefundFuel(given, consumed);
          r := ReplyCode(reply, 0);
        case FuelExhausted => r := Code(1);
        case MemoryExceeded => r := Code(1);
        case CompilationFailed =>
          RefundFuel(given, 0);
          r := Code(3);
        case InterfaceMismatch =>
          RefundFuel(given, 0);
          r := Code(4);
        case ExecutionError(reported) =>
          RefundFuel(given, reported);
          r := Code(5);
        case RegistryError =>
          RefundFuel(given, 0);
          r := Code(6);
      }
      spent := spent.(cartridges := spent.cartridges + (maxFuel - fuel));
    }

    method BurnFuel()
      modifies this
      ensures fuelToBurn == 0 && fuel == SaturatingSub(old(fuel), old(fuelToBurn))
      ensures spent == old(spent).(burned := old(spent.burned) + (old(fuel) - fuel))
    {
      var toBurn := fuelToBurn;
      fuelToBurn := 0;
      spent := spent.(burned := spent.burned + (fuel - SaturatingSub(fuel, toBurn)));
      fuel := SaturatingSub(fuel, toBurn);
    }

    method Invoke(asked: i64, callee: Callee, reply: Reply) returns (r: Outcome)
      modifies this
      ensures (Value(), r) == Do(old(Value()), Event.Invoke(asked, callee, reply))
    {
      var maxFuel := fuel;
      var toTransfer := if AsU64(asked) > maxFuel then maxFuel else AsU64(asked);
      if callee.NoAnswer? {
        return Code(4);
      }
      var used := if callee.Ran? then Consumed(toTransfer, callee.events) else 0;
      fuelToBurn := WrappingAdd(fuelToBurn, used);
      if reply.Fault? {
        return Stopped;
      }
      var code := if callee.Ran? && callee.success then 0 else 3;
      BurnFuel();
      r := ReplyCode(reply, code);
    }

    /** The debit is rolled back when the packet cannot be sent. */
    method Withdraw(amount: i64, sent: bool) returns (r: Outcome)
      modifies this
      ensures (Value(), r) == Do(old(Value()), Event.Withdraw(amount, sent))
    {
      var maxFuel := fuel;
      if AsU64(amount) > maxFuel {
        return Code(5);
      }
      fuel := maxFuel - AsU64(amount);
      if !sent {
        fuel := maxFuel;
        return Code(6);
      }
      spent := spent.(withdrawn := spent.withdrawn + AsU64(amount));
      r := Code(0);
    }

    method Pay(amount: i64, sent: bool) returns (r: Outcome)
      modifies this
      ensures (Value(), r) == Do(old(Value()), Event.Pay(amount, sent))
    {
      if AsU64(amount) > fuel {
        return Code(5);
      }
      fuel := fuel - AsU64(amount);
      spent := spent.(paid := spent.paid + AsU64(amount));
      r := Code(0);
    }

    method Fork(amount: i64, sent: bool) returns (r: Outcome)
      modifies this
      ensures (Value(), r) == Do(old(Value()), Event.Fork(amount, sent))
    {
      if AsU64(amount) > fuel {
        return Code(5);
      }
      fuel := fuel - AsU64(amount);
      spent := spent.(forked := spent.forked + AsU64(amount));
      r := Code(0);
    }

    method Fetch(requestSize: nat, withinQuota: bool, responseSize: nat, success: bool, reply: Reply)
      returns (r: Outcome)
      modifies this
      ensures (Value(), r) == Do(old(Value()), Event.Fetch(requestSize, withinQuota, responseSize, success, reply))
    {
      DeductFuel(PreflightCost(requestSize));
      if !withinQuota {
        return Code(8);
      }
      DeductFuel(ResponseCost(responseSize));
      r := if success then ReplyCode(reply, 0) else Code(6);
    }

    method Remember(dim: nat) returns (r: Outcome)
      modifies this
      ensures (Value(), r) == Do(old(Value()), Event.Remember(dim))
    {
      DeductFuel(500 + dim * 5);
      r := Code(0);
    }

    method Recall(dim: nat, reply: Reply) returns (r: Outcome)
      modifies this
      ensures (Value(), r) == Do(old(Value()), Event.Recall(dim, reply))
    {
      DeductFuel(100 + dim * 2);
      r := ReplyCode(reply, 0);
    }

    method ModelLoad(loaded: bool) returns (r: Outcome)
      modifies this
      ensures (Value(), r) == Do(old(Value()), Event.ModelLoad(loaded))
    {
      DeductFuel(MODEL_LOAD_COST);
      r := Code(if loaded then 0 else 3);
    }

    /** A prediction the model answered. */
    method Predict(tokens: nat, reply: Reply) returns (r: Outcome)
      modifies this
      ensures (Value(), r) == Do(old(Value()), Event.Predict(tokens, reply))
    {
      DeductFuel(PredictCost(tokens));
      r := ReplyCode(reply, 0);
    }
  }
}
