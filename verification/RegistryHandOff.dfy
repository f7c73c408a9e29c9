/**
 Migrations by way of a registry (src/teleport.rs:72-94 on the source,
 src/hive/connection.rs:321-368 on the target). The registry stores one state
 per reference, and a reference is made from the alias alone: whoever pushes
 last under it decides what a target pulls.
 */
module RegistryHandOff {
  import opened Wrappers

  import opened Teleport

  /** Of any agent, from any node, to any other; a retry is another migration. */
  datatype Migration = Migration(alias: string, agent: Import)

  datatype Stage = Prepared | Pushed | GivenUp | HandedOver

  /** How far the source is, and what the target has imported on its notice. */
  datatype HandOff = HandOff(stage: Stage, imported: seq<Import>)

  datatype World = World(registry: map<string, Snapshot>, handOffs: seq<HandOff>)

  /**
   A push may land in the registry, and its answer may be lost. A notice is the
   moment when the target, if it is reached, pulls.
   */
  datatype Event = Push(i: nat, landed: bool, answered: bool) | Notice(i: nat, fate: Fate)

  function Reference(alias: string): string {
    alias + "-state:temp"
  }

  function Start(ms: seq<Migration>): World {
    World(map[], seq(|ms|, _ => HandOff(Prepared, [])))
  }

  function Lookup(registry: map<string, Snapshot>, alias: string): Option<Snapshot> {
    if Reference(alias) in registry then Some(registry[Reference(alias)]) else None
  }

  function Next(ms: seq<Migration>, w: World, e: Event): (r: World)
    requires |w.handOffs| == |ms|
    ensures |r.handOffs| == |ms|
  {
    if e.i >= |ms| then w
    else
      var m := ms[e.i];
      match e
      case Push(i, landed, answered) =>
        if w.handOffs[i].stage != Prepared then w
        else
          World(if landed then w.registry[Reference(m.alias) := m.agent.snapshot] else w.registry,
                w.handOffs[i := HandOff(if landed && answered then Pushed else GivenUp, [])])
      case Notice(i, fate) =>
        if w.handOffs[i].stage != Pushed then w
        else
          var (t, registered) :=
            AfterNotice(Target([], []), m.agent.manifest, Lookup(w.registry, m.alias), fate);
          w.(handOffs := w.handOffs[i := HandOff(if registered then GivenUp else HandedOver, t.imported)])
  }

  /** The world after the first `k` events. */
  function After(ms: seq<Migration>, events: seq<Event>, k: nat): (w: World)
    requires k <= |events|
    ensures |w.handOffs| == |ms|
  {
    if k == 0 then Start(ms) else Next(ms, After(ms, events, k - 1), events[k - 1])
  }

  // ---------------------------------------------------------------------
  // What a schedule of pushes and notices says by itself
  // ---------------------------------------------------------------------

  /** One of the first `k` events is the push of `i`. */
  predicate HasPushed(events: seq<Event>, k: nat, i: nat)
    requires k <= |events|
  {
    exists j: nat | j < k :: events[j].Push? && events[j].i == i
  }

  /** The migrations whose push under the reference of `alias` landed, in that order. */
  function PushedUnder(ms: seq<Migration>, events: seq<Event>, k: nat, alias: string): (r: seq<nat>)
    requires k <= |events|
    ensures forall i <- r :: i < |ms| && ms[i].alias == alias
  {
    if k == 0 then []
    else
      var e := events[k - 1];
      PushedUnder(ms, events, k - 1, alias)
      + if e.Push? && e.landed && e.i < |ms| && ms[e.i].alias == alias && !HasPushed(events, k - 1, e.i) then [e.i]
        else []
  }

  /** What is stored under the reference of `alias`: the state that was pushed last. */
  function Stored(ms: seq<Migration>, events: seq<Event>, k: nat, alias: string): Option<Snapshot>
    requires k <= |events|
  {
    var pushed := PushedUnder(ms, events, k, alias);
    if pushed == [] then None
    else
      assert pushed[|pushed| - 1] in pushed;
      Some(ms[pushed[|pushed| - 1]].agent.snapshot)
  }

  /** The source of `i` knows that its state is pushed, and has not sent its notice. */
  predicate Waits(events: seq<Event>, k: nat, i: nat)
    requires k <= |events|
  {
    k > 0 &&
    var e := events[k - 1];
    if e.i != i then Waits(events, k - 1, i)
    else if e.Push? && !HasPushed(events, k - 1, i) then e.landed && e.answered
    else Waits(events, k - 1, i) && e.Push?
  }

  /** The notice of `i` is the event at `k`; the target pulls and imports, and the source is told so. */
  predicate ConcludesAt(events: seq<Event>, i: nat, k: nat) {
    && k < |events| && events[k].Notice? && events[k].i == i && Waits(events, k, i)
    && events[k].fate.delivered && events[k].fate.acknowledged && !events[k].fate.importFails
  }

  /** Where the hand-off of `i` concludes within the first `k` events, if it does. */
  function Conclusion(events: seq<Event>, i: nat, k: nat): (r: Option<nat>)
    requires k <= |events|
    ensures r.Some? ==> r.value < k && ConcludesAt(events, i, r.value)
  {
    if k == 0 then None
    else if ConcludesAt(events, i, k - 1) then Some(k - 1)
    else Conclusion(events, i, k - 1)
  }

  // ---------------------------------------------------------------------
  // When an agent is lost
  // ---------------------------------------------------------------------

  /** The source has given the agent up, and what the target imported for it is something else. */
  predicate Lost(ms: seq<Migration>, w: World, i: nat)
    requires i < |ms| == |w.handOffs|
  {
    w.handOffs[i].stage == HandedOver && w.handOffs[i].imported != [ms[i].agent]
  }

  /** Different aliases have different references. */
  lemma ReferencesDiffer(a: string, b: string)
    requires Reference(a) == Reference(b)
    ensures a == b
  {
    assert |a| == |b|;
    assert a == Reference(a)[..|a|] == Reference(b)[..|b|] == b;
  }

  lemma {:induction false} PreparedUntilPush(ms: seq<Migration>, events: seq<Event>, k: nat, i: nat)
    requires k <= |events| && i < |ms|
    ensures After(ms, events, k).handOffs[i].stage == Prepared <==> !HasPushed(events, k, i)
  {
    if k > 0 {
      PreparedUntilPush(ms, events, k - 1, i);
    }
  }

  lemma {:induction false} RegistryIsLastPush(ms: seq<Migration>, events: seq<Event>, k: nat, alias: string)
    requires k <= |events|
    ensures Lookup(After(ms, events, k).registry, alias) == Stored(ms, events, k, alias)
  {
    if k > 0 {
      RegistryIsLastPush(ms, events, k - 1, alias);
      var i := events[k - 1].i;
      if i < |ms| {
        PreparedUntilPush(ms, events, k - 1, i);
        if Reference(ms[i].alias) == Reference(alias) {
          ReferencesDiffer(ms[i].alias, alias);
        }
      }
    }
  }

  lemma {:induction false} WaitsIsPushed(ms: seq<Migration>, events: seq<Event>, k: nat, i: nat)
    requires k <= |events| && i < |ms|
    ensures After(ms, events, k).handOffs[i].stage == Pushed <==> Waits(events, k, i)
    ensures Waits(events, k, i) ==> i in PushedUnder(ms, events, k, ms[i].alias)
  {
    if k > 0 {
      WaitsIsPushed(ms, events, k - 1, i);
      PreparedUntilPush(ms, events, k - 1, i);
    }
  }

  /** The hand-off is over exactly when it has concluded, with whatever the reference held there. */
  ghost predicate EndsAs(ms: seq<Migration>, events: seq<Event>, k: nat, i: nat, h: HandOff)
    requires k <= |events| && i < |ms|
  {
    var end := Conclusion(events, i, k);
    && (h.stage == HandedOver <==> end.Some?)
    && (end.Some? ==>
          var s := Stored(ms, events, end.value, ms[i].alias);
          s.Some? && h.imported == [Import(s.value, ms[i].agent.manifest)])
  }

  lemma {:induction false} AfterEndsAs(ms: seq<Migration>, events: seq<Event>, k: nat, i: nat)
    requires k <= |events| && i < |ms|
    ensures EndsAs(ms, events, k, i, After(ms, events, k).handOffs[i])
  {
    if k > 0 {
      AfterEndsAs(ms, events, k - 1, i);
      WaitsIsPushed(ms, events, k - 1, i);
      RegistryIsLastPush(ms, events, k - 1, ms[i].alias);
    }
  }

  /**
   Over every schedule of any number of migrations: an agent is lost exactly
   when its hand-off concludes and, of the pushes under its reference that
   landed before the target pulled, the last one was of another state.
   */
  lemma LostIff(ms: seq<Migration>, events: seq<Event>, i: nat)
    requires i < |ms|
    ensures var end := Conclusion(events, i, |events|);
            Lost(ms, After(ms, events, |events|), i) <==>
              end.Some? && Stored(ms, events, end.value, ms[i].alias) != Some(ms[i].agent.snapshot)
  {
    AfterEndsAs(ms, events, |events|, i);
  }

  /** No agent is lost whose alias no other migration has, unless with the same state. */
  lemma AloneIsSafe(ms: seq<Migration>, events: seq<Event>, i: nat)
    requires i < |ms|
    requires forall m <- ms :: m.alias == ms[i].alias ==> m.agent.snapshot == ms[i].agent.snapshot
    ensures !Lost(ms, After(ms, events, |events|), i)
  {
    AfterEndsAs(ms, events, |events|, i);
  }

  /** Two nodes move an agent of the same name: both give it up, and one of the two states was imported nowhere. */
  lemma TwoNodesOneState(one: Import, other: Import, rehash: Rehash)
    requires one.snapshot != other.snapshot
    ensures var ms := [Migration("a", one), Migration("a", other)];
            var smooth := Fate(true, true, rehash, false);
            var w := After(ms, [Push(0, true, true), Push(1, true, true), Notice(0, smooth), Notice(1, smooth)], 4);
            && w.handOffs == [HandOff(HandedOver, [Import(other.snapshot, one.manifest)]),
                              HandOff(HandedOver, [other])]
            && Lost(ms, w, 0) && !Lost(ms, w, 1)
  {
    var ms := [Migration("a", one), Migration("a", other)];
    var smooth := Fate(true, true, rehash, false);
    var pushed := Next(ms, Next(ms, Start(ms), Push(0, true, true)), Push(1, true, true));
    AfterFour(ms, Push(0, true, true), Push(1, true, true), Notice(0, smooth), Notice(1, smooth));
    assert pushed.handOffs == [HandOff(Pushed, []), HandOff(Pushed, [])];
    assert Lookup(pushed.registry, "a") == Some(other.snapshot);
    var wrong := Import(other.snapshot, one.manifest);
    assert [] + [wrong] == [wrong] && [] + [other] == [other];
    assert Next(ms, pushed, Notice(0, smooth)).handOffs == [HandOff(HandedOver, [wrong]), HandOff(Pushed, [])];
    assert [wrong][0] != [one][0];
  }

  lemma AfterFour(ms: seq<Migration>, a: Event, b: Event, c: Event, d: Event)
    ensures After(ms, [a, b, c, d], 4) == Next(ms, Next(ms, Next(ms, Next(ms, Start(ms), a), b), c), d)
  {
    assert After(ms, [a, b, c, d], 1) == Next(ms, Start(ms), a);
    assert After(ms, [a, b, c, d], 2) == Next(ms, Next(ms, Start(ms), a), b);
    assert After(ms, [a, b, c, d], 3) == Next(ms, Next(ms, Next(ms, Start(ms), a), b), c);
  }
}
