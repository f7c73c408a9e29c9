/**
 The fuel ledger (src/economy/registry.rs). A transfer holds the nonce lock from
 start to end but takes the two balances one at a time, so minting can run
 between any two of its steps. The ledger is therefore a machine over steps.
 */
module Ledger {
  import opened Words
  import opened Wrappers

  type Account = seq<bv8>

  datatype FuelTransaction =
    FuelTransaction(from: Account, to: Account, amount: u64, nonce: u64, signature: seq<bv8>)

  datatype EconomyError = InsufficientFunds | InvalidSignature | ReplayAttack | InvalidFormat

  /** What key parsing and Ed25519 verification say of a transaction. */
  datatype Verdict = Genuine | Malformed | Forged

  type SignatureCheck = FuelTransaction -> Verdict

  datatype Phase = Idle | Verified(tx: FuelTransaction) | Debited(tx: FuelTransaction) | Credited(tx: FuelTransaction)

  datatype State =
    State(balances: map<Account, u64>, auditLog: seq<FuelTransaction>, usedNonces: set<u64>, phase: Phase)

  const EMPTY := State(map[], [], {}, Idle)

  datatype Step = Mint(to: Account, amount: u64) | Begin(tx: FuelTransaction) | Debit | Credit | Log

  function Balance(balances: map<Account, u64>, a: Account): u64 {
    if a in balances then balances[a] else 0
  }

  function AfterMint(s: State, to: Account, amount: u64): State {
    s.(balances := s.balances[to := WrappingAdd(Balance(s.balances, to), amount)])
  }

  function AfterBegin(check: SignatureCheck, s: State, tx: FuelTransaction): State {
    if !s.phase.Idle? || tx.nonce in s.usedNonces then s
    else s.(usedNonces := s.usedNonces + {tx.nonce}, phase := if check(tx).Genuine? then Verified(tx) else Idle)
  }

  function AfterDebit(s: State): State {
    if !s.phase.Verified? then s
    else
      var tx := s.phase.tx;
      var funds := Balance(s.balances, tx.from);
      if funds < tx.amount then s.(balances := s.balances[tx.from := funds], phase := Idle)
      else s.(balances := s.balances[tx.from := funds - tx.amount], phase := Debited(tx))
  }

  function AfterCredit(s: State): State {
    if !s.phase.Debited? then s
    else
      var tx := s.phase.tx;
      s.(balances := s.balances[tx.to := WrappingAdd(Balance(s.balances, tx.to), tx.amount)], phase := Credited(tx))
  }

  function AfterLog(s: State): State {
    if s.phase.Credited? then s.(auditLog := s.auditLog + [s.phase.tx], phase := Idle) else s
  }

  /** One step; a step that is not enabled waits, that is, changes nothing. */
  function Next(check: SignatureCheck, s: State, step: Step): State {
    match step
    case Mint(to, amount) => AfterMint(s, to, amount)
    case Begin(tx) => AfterBegin(check, s, tx)
    case Debit => AfterDebit(s)
    case Credit => AfterCredit(s)
    case Log => AfterLog(s)
  }

  function Run(check: SignatureCheck, s: State, steps: seq<Step>): State
    decreases |steps|
  {
    if steps == [] then s else Next(check, Run(check, s, steps[..|steps| - 1]), steps[|steps| - 1])
  }

  // ---------------------------------------------------------------------
  // Money
  // ---------------------------------------------------------------------

  ghost function Sum(m: map<Account, u64>): nat
    decreases |m|
  {
    if m == map[] then 0 else var a :| a in m; m[a] + Sum(m - {a})
  }

  lemma {:induction false} SumWithout(m: map<Account, u64>, a: Account)
    requires a in m
    ensures Sum(m) == m[a] + Sum(m - {a})
    decreases |m|
  {
    var b :| b in m && Sum(m) == m[b] + Sum(m - {b});
    if a != b {
      SumWithout(m - {b}, a);
      SumWithout(m - {a}, b);
      assert m - {b} - {a} == m - {a} - {b};
    }
  }

  lemma SumUpdate(m: map<Account, u64>, a: Account, v: u64)
    ensures Sum(m[a := v]) == Sum(m) - Balance(m, a) + v
  {
    SumWithout(m[a := v], a);
    if a in m {
      SumWithout(m, a);
      assert m[a := v] - {a} == m - {a};
    } else {
      assert m[a := v] - {a} == m;
    }
  }

  lemma BalanceAtMostSum(m: map<Account, u64>, a: Account)
    ensures Balance(m, a) <= Sum(m)
  {
    if a in m {
      SumWithout(m, a);
    }
  }

  /** The amount taken from one account and not yet given to the other. */
  function InFlight(s: State): u64 {
    if s.phase.Debited? then s.phase.tx.amount else 0
  }

  function TotalMinted(steps: seq<Step>): nat {
    if steps == [] then 0
    else TotalMinted(steps[..|steps| - 1]) + MintedBy(steps[|steps| - 1])
  }

  function MintedBy(step: Step): u64 {
    if step.Mint? then step.amount else 0
  }

  function MintedTo(steps: seq<Step>, a: Account): nat {
    if steps == [] then 0
    else
      var last := steps[|steps| - 1];
      MintedTo(steps[..|steps| - 1], a) + if last.Mint? && last.to == a then last.amount else 0
  }

  function Sent(log: seq<FuelTransaction>, a: Account): nat {
    if log == [] then 0
    else Sent(log[..|log| - 1], a) + if log[|log| - 1].from == a then log[|log| - 1].amount else 0
  }

  function Received(log: seq<FuelTransaction>, a: Account): nat {
    if log == [] then 0
    else Received(log[..|log| - 1], a) + if log[|log| - 1].to == a then log[|log| - 1].amount else 0
  }

  /** The log as far as its debits, and as far as its credits, have happened. */
  function DebitLog(s: State): seq<FuelTransaction> {
    if s.phase.Debited? || s.phase.Credited? then s.auditLog + [s.phase.tx] else s.auditLog
  }

  function CreditLog(s: State): seq<FuelTransaction> {
    if s.phase.Credited? then s.auditLog + [s.phase.tx] else s.auditLog
  }

  lemma LogGrows(log: seq<FuelTransaction>, tx: FuelTransaction, a: Account)
    ensures Sent(log + [tx], a) == Sent(log, a) + if tx.from == a then tx.amount else 0
    ensures Received(log + [tx], a) == Received(log, a) + if tx.to == a then tx.amount else 0
  {
    assert (log + [tx])[..|log|] == log;
  }

  /** What `a` holds, counting logged transfers backwards. */
  function Position(s: State, a: Account): int {
    Balance(s.balances, a) + Sent(DebitLog(s), a) - Received(CreditLog(s), a)
  }

  /** Every balance is what was minted to it, plus what the log credits, minus what the log debits. */
  ghost predicate Replays(s: State, steps: seq<Step>) {
    forall a :: Position(s, a) == MintedTo(steps, a)
  }

  ghost predicate Conserved(s: State, steps: seq<Step>) {
    Sum(s.balances) + InFlight(s) == TotalMinted(steps)
  }

  /** The 64-bit addition of `step`, if it has one, does not wrap. */
  predicate Fits(s: State, step: Step) {
    && (step.Mint? ==> Balance(s.balances, step.to) + step.amount < U64)
    && (step.Credit? && s.phase.Debited? ==> Balance(s.balances, s.phase.tx.to) + s.phase.tx.amount < U64)
  }

  lemma ConservedFits(s: State, steps: seq<Step>, step: Step)
    requires Conserved(s, steps) && TotalMinted(steps) + MintedBy(step) < U64
    ensures Fits(s, step)
  {
    if step.Mint? {
      BalanceAtMostSum(s.balances, step.to);
    } else if step.Credit? && s.phase.Debited? {
      BalanceAtMostSum(s.balances, s.phase.tx.to);
    }
  }

  lemma SumDebit(s: State)
    ensures Sum(AfterDebit(s).balances) + InFlight(AfterDebit(s)) == Sum(s.balances) + InFlight(s)
  {
    if s.phase.Verified? {
      var tx, funds := s.phase.tx, Balance(s.balances, s.phase.tx.from);
      SumUpdate(s.balances, tx.from, if funds < tx.amount then funds else funds - tx.amount);
    }
  }

  lemma SumCredit(s: State)
    ensures Sum(AfterCredit(s).balances) + InFlight(AfterCredit(s)) + Wrapped(s, Credit)
         == Sum(s.balances) + InFlight(s)
  {
    if s.phase.Debited? {
      var to := s.phase.tx.to;
      SumUpdate(s.balances, to, WrappingAdd(Balance(s.balances, to), s.phase.tx.amount));
    }
  }

  /** Step `i` of a run does not wrap. */
  predicate FitsAt(check: SignatureCheck, steps: seq<Step>, i: nat)
    requires i < |steps|
  {
    Fits(Run(check, EMPTY, steps[..i]), steps[i])
  }

  /** What the step's addition drops when it wraps. */
  function Wrapped(s: State, step: Step): nat {
    if Fits(s, step) then 0 else U64
  }

  lemma SumStep(check: SignatureCheck, s: State, step: Step)
    ensures Sum(Next(check, s, step).balances) + InFlight(Next(check, s, step)) + Wrapped(s, step)
         == Sum(s.balances) + InFlight(s) + MintedBy(step)
  {
    match step
    case Mint(to, amount) => SumUpdate(s.balances, to, WrappingAdd(Balance(s.balances, to), amount));
    case Begin(_) =>
    case Debit => SumDebit(s);
    case Credit => SumCredit(s);
    case Log =>
  }

  /** What all the additions of a run have dropped. */
  function Dropped(check: SignatureCheck, steps: seq<Step>): nat
    decreases |steps|
  {
    if steps == [] then 0
    else
      var n := |steps| - 1;
      Dropped(check, steps[..n]) + Wrapped(Run(check, EMPTY, steps[..n]), steps[n])
  }

  /** Over every run, however much is minted, fuel is lost only where an addition wraps, 2^64 at a time. */
  lemma {:induction false} LossIsWrapping(check: SignatureCheck, steps: seq<Step>)
    ensures var s := Run(check, EMPTY, steps);
            Sum(s.balances) + InFlight(s) + Dropped(check, steps) == TotalMinted(steps)
    decreases |steps|
  {
    if steps != [] {
      var n := |steps| - 1;
      LossIsWrapping(check, steps[..n]);
      SumStep(check, Run(check, EMPTY, steps[..n]), steps[n]);
    }
  }

  lemma {:induction false} NothingDroppedIff(check: SignatureCheck, steps: seq<Step>)
    ensures Dropped(check, steps) == 0 <==> forall i: nat | i < |steps| :: FitsAt(check, steps, i)
    decreases |steps|
  {
    if steps != [] {
      var n := |steps| - 1;
      NothingDroppedIff(check, steps[..n]);
      forall i: nat | i < n ensures FitsAt(check, steps, i) == FitsAt(check, steps[..n], i) {
        assert steps[..n][..i] == steps[..i];
      }
      assert FitsAt(check, steps, n) <==> Wrapped(Run(check, EMPTY, steps[..n]), steps[n]) == 0;
    }
  }

  /** A run conserves what was minted exactly when no step's 64-bit addition wraps. */
  lemma ConservedIffNothingWraps(check: SignatureCheck, steps: seq<Step>)
    ensures Conserved(Run(check, EMPTY, steps), steps)
       <==> forall i: nat | i < |steps| :: FitsAt(check, steps, i)
  {
    LossIsWrapping(check, steps);
    NothingDroppedIff(check, steps);
  }

  lemma MintedStep(steps: seq<Step>, step: Step, a: Account)
    ensures TotalMinted(steps + [step]) == TotalMinted(steps) + MintedBy(step)
    ensures MintedTo(steps + [step], a) == MintedTo(steps, a) + if step.Mint? && step.to == a then step.amount else 0
  {
    assert (steps + [step])[..|steps|] == steps;
  }

  lemma PositionStep(check: SignatureCheck, s: State, step: Step, a: Account)
    requires Fits(s, step)
    ensures Position(Next(check, s, step), a) == Position(s, a) + if step.Mint? && step.to == a then step.amount else 0
  {
    if !s.phase.Idle? {
      LogGrows(s.auditLog, s.phase.tx, a);
    }
    match step
    case Mint(_, _) =>
    case Begin(_) =>
    case Debit =>
    case Credit =>
    case Log =>
  }

  /**
   Whatever mints run between the steps of whatever transfers, fuel is neither
   made nor lost, no addition wraps, and every balance replays from the log.
   */
  lemma {:induction false} LedgerConserves(check: SignatureCheck, steps: seq<Step>)
    requires TotalMinted(steps) < U64
    ensures Conserved(Run(check, EMPTY, steps), steps)
    ensures Replays(Run(check, EMPTY, steps), steps)
    ensures forall i: nat | i < |steps| :: FitsAt(check, steps, i)
    decreases |steps|
  {
    if steps != [] {
      var n := |steps| - 1;
      var before, s := steps[..n], Run(check, EMPTY, steps[..n]);
      LedgerConserves(check, before);
      assert steps == before + [steps[n]];
      MintedStep(before, steps[n], []);
      ConservedFits(s, before, steps[n]);
      SumStep(check, s, steps[n]);
      forall a ensures Position(Next(check, s, steps[n]), a) == MintedTo(steps, a) {
        MintedStep(before, steps[n], a);
        PositionStep(check, s, steps[n], a);
      }
    }
    ConservedIffNothingWraps(check, steps);
  }

  /** With no transfer under way: no fuel is in flight and each balance is mints plus the log. */
  lemma AtRest(check: SignatureCheck, steps: seq<Step>, a: Account)
    requires TotalMinted(steps) < U64 && Run(check, EMPTY, steps).phase.Idle?
    ensures Sum(Run(check, EMPTY, steps).balances) == TotalMinted(steps)
    ensures Balance(Run(check, EMPTY, steps).balances, a) + Sent(Run(check, EMPTY, steps).auditLog, a)
         == MintedTo(steps, a) + Received(Run(check, EMPTY, steps).auditLog, a)
  {
    LedgerConserves(check, steps);
  }

  // ---------------------------------------------------------------------
  // Nonces
  // ---------------------------------------------------------------------

  ghost predicate LogEntriesDiffer(log: seq<FuelTransaction>) {
    forall i, j :: 0 <= i < j < |log| ==> log[i].nonce != log[j].nonce
  }

  ghost predicate LoggedNoncesUsed(s: State) {
    && (forall tx <- s.auditLog :: tx.nonce in s.usedNonces)
    && (!s.phase.Idle? ==> s.phase.tx.nonce in s.usedNonces && forall tx <- s.auditLog :: tx.nonce != s.phase.tx.nonce)
  }

  lemma NonceStep(check: SignatureCheck, s: State, step: Step)
    requires LogEntriesDiffer(s.auditLog) && LoggedNoncesUsed(s)
    ensures LogEntriesDiffer(Next(check, s, step).auditLog) && LoggedNoncesUsed(Next(check, s, step))
  {
  }

  /** No nonce is ever logged twice, and only checked transactions are logged. */
  lemma {:induction false} NoncesLogOnce(check: SignatureCheck, steps: seq<Step>)
    ensures LogEntriesDiffer(Run(check, EMPTY, steps).auditLog)
    ensures LoggedNoncesUsed(Run(check, EMPTY, steps))
    ensures forall tx <- DebitLog(Run(check, EMPTY, steps)) :: check(tx).Genuine?
    ensures Run(check, EMPTY, steps).phase.Verified? ==> check(Run(check, EMPTY, steps).phase.tx).Genuine?
    decreases |steps|
  {
    if steps != [] {
      NoncesLogOnce(check, steps[..|steps| - 1]);
      NonceStep(check, Run(check, EMPTY, steps[..|steps| - 1]), steps[|steps| - 1]);
    }
  }

  /** A nonce that is used but neither logged nor under way. */
  ghost predicate Burned(s: State, nonce: u64) {
    && nonce in s.usedNonces && (forall tx <- s.auditLog :: tx.nonce != nonce)
    && (s.phase.Idle? || s.phase.tx.nonce != nonce)
  }

  /** A refused transfer burns its nonce: that transaction can never go through later, not even once funded. */
  lemma {:induction false} BurnedStaysBurned(check: SignatureCheck, s: State, steps: seq<Step>, nonce: u64)
    requires Burned(s, nonce)
    ensures Burned(Run(check, s, steps), nonce)
    decreases |steps|
  {
    if steps != [] {
      BurnedStaysBurned(check, s, steps[..|steps| - 1], nonce);
    }
  }

  function AlwaysGenuine(tx: FuelTransaction): Verdict {
    Genuine
  }

  // ---------------------------------------------------------------------
  // One transfer without interruption
  // ---------------------------------------------------------------------

  function TransferSteps(tx: FuelTransaction): seq<Step> {
    [Begin(tx), Debit, Credit, Log]
  }

  function TransferResult(check: SignatureCheck, s: State, tx: FuelTransaction): Result<(), EconomyError> {
    if tx.nonce in s.usedNonces then Err(ReplayAttack)
    else if check(tx).Malformed? then Err(InvalidFormat)
    else if check(tx).Forged? then Err(InvalidSignature)
    else if Balance(s.balances, tx.from) < tx.amount then Err(InsufficientFunds)
    else Ok(())
  }

  lemma RunFour(check: SignatureCheck, s: State, tx: FuelTransaction)
    ensures Run(check, s, TransferSteps(tx))
         == Next(check, Next(check, Next(check, Next(check, s, Begin(tx)), Debit), Credit), Log)
  {
    var four := TransferSteps(tx);
    assert four[..3][..2] == four[..2] && four[..2][..1] == four[..1] && four[..1][..0] == [];
    assert Run(check, s, four[..1]) == Next(check, s, Begin(tx));
    assert Run(check, s, four[..2]) == Next(check, Next(check, s, Begin(tx)), Debit);
    assert Run(check, s, four[..3]) == Next(check, Next(check, Next(check, s, Begin(tx)), Debit), Credit);
  }

  function Refused(check: SignatureCheck, s: State, tx: FuelTransaction): State {
    var balances := if TransferResult(check, s, tx) == Err(InsufficientFunds)
                    then s.balances[tx.from := Balance(s.balances, tx.from)] else s.balances;
    s.(usedNonces := s.usedNonces + {tx.nonce}, balances := balances)
  }

  function Accepted(s: State, tx: FuelTransaction): State
    requires Balance(s.balances, tx.from) >= tx.amount
  {
    var debited := s.balances[tx.from := Balance(s.balances, tx.from) - tx.amount];
    s.(balances := debited[tx.to := WrappingAdd(Balance(debited, tx.to), tx.amount)],
       auditLog := s.auditLog + [tx], usedNonces := s.usedNonces + {tx.nonce})
  }

  lemma RunTransfer(check: SignatureCheck, s: State, tx: FuelTransaction)
    requires s.phase.Idle?
    ensures Run(check, s, TransferSteps(tx))
         == if TransferResult(check, s, tx).Ok? then Accepted(s, tx) else Refused(check, s, tx)
  {
    RunFour(check, s, tx);
    assert tx.nonce in s.usedNonces ==> s.usedNonces + {tx.nonce} == s.usedNonces;
  }

  /** Ok exactly when the log gains the transaction; any refusal but a replay burns the nonce. */
  lemma TransferOutcome(check: SignatureCheck, s: State, tx: FuelTransaction)
    requires s.phase.Idle? && LoggedNoncesUsed(s)
    ensures var t := Run(check, s, TransferSteps(tx));
            && t.phase.Idle?
            && t.auditLog == (if TransferResult(check, s, tx).Ok? then s.auditLog + [tx] else s.auditLog)
            && (TransferResult(check, s, tx).Err? ==>
                  && (forall a :: Balance(t.balances, a) == Balance(s.balances, a))
                  && (tx.nonce !in s.usedNonces ==> Burned(t, tx.nonce)))
  {
    RunFour(check, s, tx);
  }

  /**
   A transfer goes through exactly when its nonce is unused, it is genuine and its
   sender has the amount; otherwise the first of these that fails says how it is
   refused. Either way its nonce is used from then on.
   */
  lemma TransferGoesThroughIff(check: SignatureCheck, s: State, tx: FuelTransaction)
    requires s.phase.Idle?
    ensures var t, r := Run(check, s, TransferSteps(tx)), TransferResult(check, s, tx);
            var unused := tx.nonce !in s.usedNonces;
            var funds := if tx.from in s.balances then s.balances[tx.from] else 0;
            && t.usedNonces == s.usedNonces + {tx.nonce}
            && t.auditLog == s.auditLog + (if unused && check(tx).Genuine? && funds >= tx.amount then [tx] else [])
            && (r.Ok? <==> unused && check(tx).Genuine? && funds >= tx.amount)
            && (r == Err(ReplayAttack) <==> !unused)
            && (r == Err(InvalidFormat) <==> unused && check(tx).Malformed?)
            && (r == Err(InvalidSignature) <==> unused && check(tx).Forged?)
            && (r == Err(InsufficientFunds) <==> unused && check(tx).Genuine? && funds < tx.amount)
  {
    RunFour(check, s, tx);
    assert tx.nonce in s.usedNonces ==> s.usedNonces + {tx.nonce} == s.usedNonces;
    assert s.auditLog + [] == s.auditLog;
  }

  /** An accepted transfer moves the amount, all of it, between exactly two accounts (or one account to itself). */
  lemma TransferMoves(check: SignatureCheck, s: State, tx: FuelTransaction, a: Account)
    requires s.phase.Idle? && TransferResult(check, s, tx).Ok?
    requires tx.from == tx.to || Balance(s.balances, tx.to) + tx.amount < 0x1_0000_0000_0000_0000
    ensures Balance(Run(check, s, TransferSteps(tx)).balances, a)
         == Balance(s.balances, a) - (if tx.from == a then tx.amount else 0) + (if tx.to == a then tx.amount else 0)
  {
    RunFour(check, s, tx);
  }

  /** Refused for lack of funds, then funded: the same signed transaction is still refused. */
  lemma FundedRetryRefused()
    ensures var tx := FuelTransaction([1], [2], 5, 0, []);
            var funded := AfterMint(Run(AlwaysGenuine, EMPTY, TransferSteps(tx)), [1], 5);
            && TransferResult(AlwaysGenuine, EMPTY, tx) == Err(InsufficientFunds)
            && Balance(funded.balances, [1]) == 5
            && TransferResult(AlwaysGenuine, funded, tx) == Err(ReplayAttack)
  {
    RunFour(AlwaysGenuine, EMPTY, FuelTransaction([1], [2], 5, 0, []));
  }

  class VoucherRegistry {
    var balances: map<Account, u64>
    var auditLog: seq<FuelTransaction>
    var usedNonces: set<u64>

    function Value(): State
      reads this
    {
      State(balances, auditLog, usedNonces, Idle)
    }

    constructor ()
      ensures Value() == EMPTY
    {
      balances, auditLog, usedNonces := map[], [], {};
    }

    method Mint(check: SignatureCheck, to: Account, amount: u64)
      modifies this
      ensures Value() == Next(check, old(Value()), Step.Mint(to, amount))
      ensures Sum(balances)
           == old(Sum(balances)) + amount - if old(Fits(Value(), Step.Mint(to, amount))) then 0 else U64
      ensures forall a :: a != to ==> Balance(balances, a) == Balance(old(balances), a)
    {
      SumStep(check, Value(), Step.Mint(to, amount));
      var balance := Balance(balances, to);
      balances := balances[to := WrappingAdd(balance, amount)];
    }

    method Transfer(check: SignatureCheck, tx: FuelTransaction) returns (r: Result<(), EconomyError>)
      modifies this
      ensures Value() == Run(check, old(Value()), TransferSteps(tx))
      ensures r == TransferResult(check, old(Value()), tx)
    {
      RunTransfer(check, Value(), tx);
      if tx.nonce in usedNonces {
        return Err(ReplayAttack);
      }
      usedNonces := usedNonces + {tx.nonce};
      match check(tx)
      case Malformed => return Err(InvalidFormat);
      case Forged => return Err(InvalidSignature);
      case Genuine =>
      var funds := Balance(balances, tx.from);
      balances := balances[tx.from := funds];
      if funds < tx.amount {
        return Err(InsufficientFunds);
      }
      balances := balances[tx.from := funds - tx.amount];
      balances := balances[tx.to := WrappingAdd(Balance(balances, tx.to), tx.amount)];
      auditLog := auditLog + [tx];
      r := Ok(());
    }
  }
}
