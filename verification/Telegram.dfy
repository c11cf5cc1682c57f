/** Telegram delivery: fetch, persist the offset, hand over; retries, handler failures, torn writes and crashes. */
module DeliverySpec {
  import opened Wrappers

  /** `message` is None for an update the bot does not answer. */
  datatype Update = Update(id: int, message: Option<string>)

  /** Saving the offset empties the file and then writes it: it succeeds, raises before the file is
      touched, or stops in between. */
  datatype Save = Saved | Refused | Torn

  /** What the world does to one attempt: the request fails; or it returns updates, and then saving the
      offset may raise, or the handler may raise on one message. */
  datatype Attempt = RequestFails | Returns(updates: seq<Update>, save: Save, raisesAt: Option<nat>)

  /** A crash and restart: in an attempt that returned `updates`, with the save as far as `save`, and
      after a whole one with `reached` messages begun. */
  datatype Event = Poll(attempt: Attempt) | Crash(updates: seq<Update>, save: Save, reached: nat)

  /** `offset` is what the file reads as and survives crashes, None if there is no file or half a file;
      `handled` lists the ids of the messages the handler was called for. */
  datatype Bot = Bot(offset: Option<int>, handled: seq<int>, backoff: real, slept: seq<real>, cycles: nat, failures: nat)

  datatype Backoff = Backoff(min: real, max: real)

  function Start(b: Backoff): Bot { Bot(None, [], b.min, [], 0, 0) }

  function MaxId(us: seq<Update>): (m: Option<int>)
    ensures m.None? <==> us == []
    ensures m.Some? ==> (exists u :: u in us && u.id == m.value) && forall u :: u in us ==> u.id <= m.value
  {
    if us == [] then None
    else
      var rest, last := us[..|us| - 1], us[|us| - 1];
      var before := MaxId(rest);
      assert us == rest + [last];
      assert last in us;
      Some(if before.None? || before.value < last.id then last.id else before.value)
  }

  /** The updates to answer. */
  function Batch(us: seq<Update>): (r: seq<Update>)
    ensures forall u :: u in r <==> u in us && u.message.Some?
  {
    if us == [] then []
    else
      var last := us[|us| - 1];
      Batch(us[..|us| - 1]) + if last.message.Some? then [last] else []
  }

  function Ids(us: seq<Update>): (ids: seq<int>)
    ensures |ids| == |us| && forall i :: 0 <= i < |us| ==> ids[i] == us[i].id
  {
    seq(|us|, i requires 0 <= i < |us| => us[i].id)
  }

  /** Everything up to the highest id seen is acknowledged, answered or not. */
  function Acknowledged(offset: Option<int>, us: seq<Update>): Option<int> {
    match MaxId(us)
    case None => offset
    case Some(m) => Some(m + 1)
  }

  /** What the file reads as after a poll, or part of one. */
  function Stored(offset: Option<int>, us: seq<Update>, save: Save): Option<int> {
    if us == [] || save.Refused? then offset else if save.Torn? then None else Acknowledged(offset, us)
  }

  function Lesser(a: real, b: real): real { if b < a then b else a }

  /** An exception in the loop: sleep, then double the delay up to the cap. */
  function Failed(b: Backoff, bot: Bot): Bot {
    bot.(slept := bot.slept + [bot.backoff], backoff := Lesser(bot.backoff * 2.0, b.max), failures := bot.failures + 1)
  }

  function Attempted(b: Backoff, bot: Bot, attempt: Attempt): Bot {
    match attempt
    case RequestFails => Failed(b, bot)
    case Returns(us, save, raisesAt) =>
      var stored := bot.(offset := Stored(bot.offset, us, save));
      if us != [] && !save.Saved? then Failed(b, stored)
      else
        var ids := Ids(Batch(us));
        var acked := stored.(backoff := b.min);
        if raisesAt.Some? && raisesAt.value < |ids| then
          Failed(b, acked.(handled := bot.handled + ids[..raisesAt.value + 1]))
        else acked.(handled := bot.handled + ids, cycles := bot.cycles + 1)
  }

  function Happen(b: Backoff, bot: Bot, ev: Event): Bot {
    match ev
    case Poll(attempt) => Attempted(b, bot, attempt)
    case Crash(us, save, reached) =>
      var ids := Ids(Batch(us));
      bot.(offset := Stored(bot.offset, us, save), backoff := b.min, cycles := 0,
           handled := bot.handled + if !save.Saved? then [] else if reached < |ids| then ids[..reached] else ids)
  }

  /** One process: attempts in a row. */
  function Attempts(b: Backoff, bot: Bot, world: seq<Attempt>): Bot {
    if world == [] then bot else Attempted(b, Attempts(b, bot, world[..|world| - 1]), world[|world| - 1])
  }

  function Run(b: Backoff, events: seq<Event>): Bot {
    if events == [] then Start(b) else Happen(b, Run(b, events[..|events| - 1]), events[|events| - 1])
  }
}

/** The offset file, the platform adapter and the runner. */
module Telegram {
  import opened Wrappers
  import opened DeliverySpec

  class OffsetStore {
    var offset: Option<int>

    constructor ()
      ensures offset == None
    {
      offset := None;
    }

    method Load() returns (r: Option<int>)
      ensures r == offset
    {
      r := offset;
    }

    method Save(n: int, save: Save) returns (raised: bool)
      modifies this
      ensures raised <==> !save.Saved?
      ensures offset == match save case Saved => Some(n) case Refused => old(offset) case Torn => None
    {
      if save.Refused? { return true; }
      offset := None;
      if save.Torn? { return true; }
      offset := Some(n);
      raised := false;
    }
  }

  class TelegramPlatform {
    const offsetStore: OffsetStore

    constructor (offsetStore: OffsetStore)
      ensures this.offsetStore == offsetStore
    {
      this.offsetStore := offsetStore;
    }

    /** One step of the generator on what the server returned; None if saving raised. */
    method Poll(updates: seq<Update>, save: Save) returns (r: Option<seq<Update>>)
      modifies offsetStore
      ensures offsetStore.offset == Stored(old(offsetStore.offset), updates, save)
      ensures r == if updates != [] && !save.Saved? then None else Some(Batch(updates))
    {
      hide Batch, MaxId;
      var batch: seq<Update> := [];
      var maxId: Option<int> := None;
      var n := 0;
      NothingYet();
      while n < |updates|
        invariant n <= |updates| && batch == Batch(updates[..n]) && maxId == MaxId(updates[..n])
        invariant offsetStore.offset == old(offsetStore.offset)
      {
        var u := updates[n];
        OneMore(updates, n);
        if maxId.None? || maxId.value < u.id { maxId := Some(u.id); }
        if u.message.Some? { batch := batch + [u]; }
        n := n + 1;
      }
      assert updates[..n] == updates;
      if maxId.Some? {
        var raised := offsetStore.Save(maxId.value + 1, save);
        if raised { return None; }
      }
      r := Some(batch);
    }
  }

  lemma NothingYet()
    ensures Batch([]) == [] && MaxId([]) == None
  {
  }

  lemma OneMore(us: seq<Update>, n: nat)
    requires n < |us|
    ensures
      var u, before := us[n], MaxId(us[..n]);
      && Batch(us[..n + 1]) == Batch(us[..n]) + (if u.message.Some? then [u] else [])
      && MaxId(us[..n + 1]) == if before.None? || before.value < u.id then Some(u.id) else before
  {
    assert us[..n + 1][..n] == us[..n];
  }

  class BotRunner {
    const platform: TelegramPlatform
    const limits: Backoff
    var handled: seq<int>
    var slept: seq<real>
    var pollFailures: nat

    constructor (platform: TelegramPlatform, limits: Backoff)
      ensures this.platform == platform && this.limits == limits
      ensures handled == [] && slept == [] && pollFailures == 0
    {
      this.platform := platform;
      this.limits := limits;
      handled, slept, pollFailures := [], [], 0;
    }

    function State(backoff: real, cycles: nat): Bot
      reads this, platform.offsetStore
    {
      Bot(platform.offsetStore.offset, handled, backoff, slept, cycles, pollFailures)
    }

    /** The loop, for as long as the world answers and until `maxCycles` polls were completed: returns
        how many attempts it made. */
    method RunForever(world: seq<Attempt>, maxCycles: Option<nat>) returns (used: nat, ghost backoff: real, cycles: nat)
      modifies this, platform.offsetStore
      ensures used <= |world|
      ensures State(backoff, cycles) == Attempts(limits, old(State(limits.min, 0)), world[..used])
      ensures used < |world| ==> maxCycles == Some(cycles)
      ensures maxCycles.Some? ==> cycles <= maxCycles.value
    {
      hide Batch, Stored, MaxId, Ids;
      var delay := limits.min;
      cycles, used := 0, 0;
      ghost var start := State(limits.min, 0);
      while used < |world| && (maxCycles.None? || cycles < maxCycles.value)
        invariant used <= |world|
        invariant maxCycles.Some? ==> cycles <= maxCycles.value
        invariant State(delay, cycles) == Attempts(limits, start, world[..used])
      {
        var attempt := world[used];
        assert world[..used + 1][..used] == world[..used];
        used := used + 1;
        ghost var before := State(delay, cycles);
        var raised, polled := TryOnce(attempt);
        if polled { delay := limits.min; }
        if raised {
          pollFailures := pollFailures + 1;
          slept := slept + [delay];
          delay := Lesser(delay * 2.0, limits.max);
        } else {
          cycles := cycles + 1;
        }
        assert State(delay, cycles) == Attempted(limits, before, attempt);
      }
      backoff := delay;
    }

    /** The body of the try block, for one batch: whether it raised, and whether the poll had yielded. */
    method TryOnce(attempt: Attempt) returns (raised: bool, polled: bool)
      modifies this`handled, platform.offsetStore
      ensures polled <==> attempt.Returns? && (attempt.updates == [] || attempt.save.Saved?)
      ensures raised <==> !polled || attempt.raisesAt.GetOr(|Batch(attempt.updates)|) < |Batch(attempt.updates)|
      ensures
        var was := old(platform.offsetStore.offset);
        platform.offsetStore.offset == if attempt.Returns? then Stored(was, attempt.updates, attempt.save) else was
      ensures !polled ==> handled == old(handled)
      ensures polled ==>
                var ids := Ids(Batch(attempt.updates));
                handled == old(handled) + if raised then ids[..attempt.raisesAt.value + 1] else ids
    {
      hide Batch, Stored, MaxId;
      if attempt.RequestFails? { return true, false; }
      var batch := platform.Poll(attempt.updates, attempt.save);
      if batch.None? { return true, false; }
      ghost var was, offset := handled, platform.offsetStore.offset;
      var messages := batch.value;
      var n := 0;
      while n < |messages|
        invariant n <= |messages| && handled == was + Ids(messages)[..n] && platform.offsetStore.offset == offset
        invariant attempt.raisesAt.Some? ==> n <= attempt.raisesAt.value
      {
        handled := handled + [messages[n].id];
        if attempt.raisesAt == Some(n) { return true, true; }
        n := n + 1;
      }
      assert Ids(messages)[..n] == Ids(messages);
      return false, true;
    }
  }
}

/** At-most-once delivery, in every run. */
module Delivery {
  import opened Wrappers
  import opened DeliverySpec

  predicate NotBelow(a: Option<int>, b: Option<int>) {
    a.Some? ==> b.Some? && a.value <= b.value
  }

  function Higher(a: Option<int>, b: Option<int>): (h: Option<int>)
    ensures NotBelow(a, h) && NotBelow(b, h) && (h == a || h == b)
  {
    if a.None? || (b.Some? && a.value < b.value) then b else a
  }

  /** The request was answered; a crash without updates may have come before it. */
  predicate Answers(ev: Event) {
    match ev
    case Poll(attempt) => attempt.Returns?
    case Crash(us, _, _) => us != []
  }

  function Returned(ev: Event): seq<Update> {
    match ev
    case Poll(RequestFails) => []
    case Poll(Returns(us, _, _)) => us
    case Crash(us, _, _) => us
  }

  /** The highest offset the server was ever asked with. */
  function Asked(b: Backoff, events: seq<Event>): Option<int> {
    if events == [] then None
    else
      var before := events[..|events| - 1];
      if Answers(events[|events| - 1]) then Higher(Asked(b, before), Run(b, before).offset) else Asked(b, before)
  }

  /** What the server counts as acknowledged when it is asked once more: a server that remembers goes by
      the highest offset it has seen, another by the offset of the present request. */
  function Floor(remembers: bool, b: Backoff, events: seq<Event>): Option<int> {
    var offset := Run(b, events).offset;
    if remembers then Higher(Asked(b, events), offset) else offset
  }

  /** The server's promise: distinct ids, none of them acknowledged. */
  predicate Fair(floor: Option<int>, us: seq<Update>) {
    && (forall i, j :: 0 <= i < j < |us| ==> us[i].id != us[j].id)
    && (floor.Some? ==> forall u :: u in us ==> floor.value <= u.id)
  }

  predicate FairRun(remembers: bool, b: Backoff, events: seq<Event>) {
    forall i :: 0 <= i < |events| ==> Fair(Floor(remembers, b, events[..i]), Returned(events[i]))
  }

  predicate Tears(ev: Event) {
    match ev
    case Poll(attempt) => attempt.Returns? && attempt.updates != [] && attempt.save.Torn?
    case Crash(us, save, _) => us != [] && save.Torn?
  }

  predicate Distinct(ids: seq<int>) {
    forall i, j :: 0 <= i < j < |ids| ==> ids[i] != ids[j]
  }

  /** No message was handled twice, and every handled one is acknowledged. */
  predicate Inv(handled: seq<int>, floor: Option<int>) {
    Distinct(handled) && forall id :: id in handled ==> floor.Some? && id < floor.value
  }

  lemma {:induction false} BatchDistinct(us: seq<Update>)
    requires Distinct(Ids(us))
    ensures Distinct(Ids(Batch(us)))
  {
    if us != [] {
      var rest, last := us[..|us| - 1], us[|us| - 1];
      assert forall i :: 0 <= i < |rest| ==> Ids(us)[i] == rest[i].id;
      BatchDistinct(rest);
      assert forall u :: u in Batch(rest) ==> u in rest;
      forall u | u in rest
        ensures u.id != last.id
      {
        var i :| 0 <= i < |rest| && rest[i] == u;
        assert Ids(us)[i] == u.id && Ids(us)[|us| - 1] == last.id;
      }
      forall i | 0 <= i < |Batch(rest)|
        ensures Batch(rest)[i].id != last.id
      {
        assert Batch(rest)[i] in Batch(rest);
      }
    }
  }

  lemma AcknowledgedRises(offset: Option<int>, floor: Option<int>, us: seq<Update>)
    requires Fair(floor, us) && NotBelow(offset, floor)
    ensures NotBelow(offset, Acknowledged(offset, us))
    ensures forall u :: u in us ==> Acknowledged(offset, us).Some? && u.id < Acknowledged(offset, us).value
  {
  }

  /** Handing over a prefix of a fair batch, once what is acknowledged is past it. */
  lemma DeliverKeepsInv(handled: seq<int>, floor: Option<int>, offset: Option<int>, us: seq<Update>, n: nat, later: Option<int>)
    requires Inv(handled, floor) && Fair(floor, us) && NotBelow(offset, floor) && n <= |Ids(Batch(us))|
    requires NotBelow(floor, later) && NotBelow(Acknowledged(offset, us), later)
    ensures Inv(handled + Ids(Batch(us))[..n], later)
  {
    hide MaxId, Batch, Acknowledged;
    var added := Ids(Batch(us))[..n];
    BatchDistinct(us);
    AcknowledgedRises(offset, floor, us);
    forall id | id in added
      ensures id !in handled
      ensures later.Some? && id < later.value
    {
      var i :| 0 <= i < n && added[i] == id;
      assert Batch(us)[i] in Batch(us);
    }
    forall i, j | 0 <= i < |handled| && 0 <= j < |added|
      ensures handled[i] != added[j]
    {
      assert added[j] in added && handled[i] in handled;
    }
  }

  /** A step hands over some of what it was returned, and only after a whole save. */
  lemma HandsOver(b: Backoff, bot: Bot, ev: Event) returns (n: nat)
    ensures n <= |Ids(Batch(Returned(ev)))|
    ensures Happen(b, bot, ev).handled == bot.handled + Ids(Batch(Returned(ev)))[..n]
    ensures n == 0 || Happen(b, bot, ev).offset == Acknowledged(bot.offset, Returned(ev))
  {
    hide MaxId, Acknowledged, Lesser;
    var ids := Ids(Batch(Returned(ev)));
    n := 0;
    if ev.Crash? {
      if ev.save.Saved? { n := if ev.reached < |ids| then ev.reached else |ids|; }
    } else if ev.attempt.Returns? && (ev.attempt.updates == [] || ev.attempt.save.Saved?) {
      var raisesAt := ev.attempt.raisesAt;
      n := if raisesAt.Some? && raisesAt.value < |ids| then raisesAt.value + 1 else |ids|;
    }
    assert ids[..|ids|] == ids;
    NothingYet();
  }

  lemma NothingYet()
    ensures forall offset :: Acknowledged(offset, []) == offset
  {
  }

  /** The offset goes back only in a torn save. */
  lemma OffsetRises(b: Backoff, bot: Bot, floor: Option<int>, ev: Event)
    requires Fair(floor, Returned(ev)) && NotBelow(bot.offset, floor) && !Tears(ev)
    ensures NotBelow(bot.offset, Happen(b, bot, ev).offset)
  {
    hide MaxId, Batch, Acknowledged, Fair, Ids, Lesser;
    AcknowledgedRises(bot.offset, floor, Returned(ev));
  }

  /** What is acknowledged never goes back if the server remembers, or if nothing is torn. */
  lemma FloorRises(remembers: bool, b: Backoff, events: seq<Event>, ev: Event)
    requires Fair(Floor(remembers, b, events), Returned(ev))
    requires remembers || !Tears(ev)
    ensures NotBelow(Floor(remembers, b, events), Floor(remembers, b, events + [ev]))
  {
    hide MaxId, Batch, Acknowledged, Fair, Happen;
    assert (events + [ev])[..|events|] == events;
    var bot := Run(b, events);
    if !Tears(ev) {
      OffsetRises(b, bot, Floor(remembers, b, events), ev);
    }
    if Tears(ev) {
      TearsAnswer(ev);
    }
  }

  lemma TearsAnswer(ev: Event)
    requires Tears(ev)
    ensures Answers(ev)
  {
  }

  lemma {:induction false} RunKeepsInv(remembers: bool, b: Backoff, events: seq<Event>)
    requires FairRun(remembers, b, events)
    requires remembers || forall ev :: ev in events ==> !Tears(ev)
    ensures Inv(Run(b, events).handled, Floor(remembers, b, events))
  {
    hide Happen, Floor, Fair, Tears, Returned;
    if events != [] {
      var before, last := events[..|events| - 1], events[|events| - 1];
      assert events == before + [last];
      assert forall i :: 0 <= i < |before| ==> events[..i] == before[..i];
      RunKeepsInv(remembers, b, before);
      assert last in events;
      assert Fair(Floor(remembers, b, before), Returned(last));
      StepKeepsInv(remembers, b, before, last);
    }
  }

  lemma StepKeepsInv(remembers: bool, b: Backoff, events: seq<Event>, ev: Event)
    requires Inv(Run(b, events).handled, Floor(remembers, b, events))
    requires Fair(Floor(remembers, b, events), Returned(ev))
    requires remembers || !Tears(ev)
    ensures Inv(Run(b, events + [ev]).handled, Floor(remembers, b, events + [ev]))
  {
    hide Happen, Fair, Tears, Returned, Batch, Ids, Acknowledged, Asked;
    assert (events + [ev])[..|events|] == events;
    var bot, floor, later := Run(b, events), Floor(remembers, b, events), Floor(remembers, b, events + [ev]);
    FloorRises(remembers, b, events, ev);
    var n := HandsOver(b, bot, ev);
    if n == 0 {
      assert Ids(Batch(Returned(ev)))[..0] == [];
      assert Happen(b, bot, ev).handled == bot.handled;
    } else {
      DeliverKeepsInv(bot.handled, floor, bot.offset, Returned(ev), n, later);
    }
  }

  lemma {:induction false} OffsetNeverFalls(remembers: bool, b: Backoff, events: seq<Event>, n: nat)
    requires FairRun(remembers, b, events) && n <= |events|
    requires forall ev :: ev in events ==> !Tears(ev)
    ensures NotBelow(Run(b, events[..n]).offset, Run(b, events).offset)
  {
    hide Happen, Fair, Tears, Returned, Asked;
    assert events[..|events|] == events;
    if n < |events| {
      var before, last := events[..|events| - 1], events[|events| - 1];
      assert forall i :: 0 <= i <= |before| ==> events[..i] == before[..i];
      OffsetNeverFalls(remembers, b, before, n);
      assert last in events;
      assert Fair(Floor(remembers, b, before), Returned(last));
      OffsetRises(b, Run(b, before), Floor(remembers, b, before), last);
    }
  }

  /** In every run in which no save is torn, whatever fails and whenever it crashes, if the server keeps
      its promise for the offset it is asked with then no message reaches the handler twice and the
      stored offset never goes back. */
  lemma AtMostOnce(b: Backoff, events: seq<Event>)
    requires FairRun(false, b, events)
    requires forall ev :: ev in events ==> !Tears(ev)
    ensures Distinct(Run(b, events).handled)
    ensures forall n :: 0 <= n <= |events| ==> NotBelow(Run(b, events[..n]).offset, Run(b, events).offset)
  {
    hide Run, FairRun, Tears, Floor;
    RunKeepsInv(false, b, events);
    forall n | 0 <= n <= |events|
      ensures NotBelow(Run(b, events[..n]).offset, Run(b, events).offset)
    {
      OffsetNeverFalls(false, b, events, n);
    }
  }

  /** One message is handled; the next save is torn; a server that goes by the request alone then returns
      the first message again. */
  function TornRun(): seq<Event> {
    var one, two := [Update(1, Some("a"))], [Update(2, Some("b"))];
    [Poll(Returns(one, Saved, None)), Poll(Returns(two, Torn, None)), Poll(Returns(one, Saved, None))]
  }

  lemma TornRunRepeats(b: Backoff)
    ensures FairRun(false, b, TornRun()) && Run(b, TornRun()).handled == [1, 1]
  {
    var events := TornRun();
    hide Lesser;
    var first, second := events[..1], events[..2];
    assert first[..0] == [] && second[..1] == first && events[..2] == second && events[..0] == [];
    assert Run(b, []) == Start(b);
    OneUpdate(events[0].attempt.updates[0]);
    OneUpdate(events[1].attempt.updates[0]);
    var afterFirst, afterSecond := Run(b, first), Run(b, second);
    assert afterFirst == Happen(b, Start(b), events[0]);
    assert afterFirst.handled == [1] && afterFirst.offset == Some(2);
    assert afterSecond == Happen(b, afterFirst, events[1]);
    assert afterSecond.handled == [1] && afterSecond.offset == None;
    assert Run(b, events) == Happen(b, afterSecond, events[2]);
  }

  lemma OneUpdate(u: Update)
    requires u.message.Some?
    ensures Ids(Batch([u])) == [u.id] && MaxId([u]) == Some(u.id)
  {
    assert [u][..0] == [];
  }

  /** At most once in every run, torn saves included if `tears`, if and only if nothing is torn or the
      server remembers what it was asked with. */
  lemma AtMostOnceIff(b: Backoff, remembers: bool, tears: bool)
    ensures
      (forall events | FairRun(remembers, b, events) && (tears || forall ev :: ev in events ==> !Tears(ev)) ::
         Distinct(Run(b, events).handled))
      <==> remembers || !tears
  {
    hide Run, FairRun, Tears, Floor;
    if remembers || !tears {
      forall events | FairRun(remembers, b, events) && (tears || forall ev :: ev in events ==> !Tears(ev))
        ensures Distinct(Run(b, events).handled)
      {
        RunKeepsInv(remembers, b, events);
      }
    } else {
      TornRunRepeats(b);
      var handled := Run(b, TornRun()).handled;
      assert handled[0] == handled[1];
    }
  }

  function Polls(world: seq<Attempt>): (r: seq<Event>)
    ensures |r| == |world| && forall i :: 0 <= i < |world| ==> r[i] == Poll(world[i])
  {
    seq(|world|, i requires 0 <= i < |world| => Poll(world[i]))
  }

  /** What one process does, started after any history, is one more piece of the run. */
  lemma {:induction false} ProcessIsRun(b: Backoff, events: seq<Event>, world: seq<Attempt>)
    ensures Attempts(b, Run(b, events), world) == Run(b, events + Polls(world))
  {
    hide Attempted;
    if world == [] {
      assert events + Polls(world) == events;
    } else {
      var shorter := world[..|world| - 1];
      ProcessIsRun(b, events, shorter);
      var longer := events + Polls(world);
      assert longer[..|longer| - 1] == events + Polls(shorter);
    }
  }

  // ---- Nothing is lost unless something raises after the save, or crashes ----

  predicate Smooth(ev: Event) {
    ev.Poll? && (ev.attempt.Returns? ==> ev.attempt.raisesAt.None?)
  }

  /** All messages the server returned to attempts that could save. */
  function Answered(events: seq<Event>): seq<int> {
    if events == [] then []
    else
      var last := events[|events| - 1];
      Answered(events[..|events| - 1]) +
        if last.Poll? && last.attempt.Returns? && last.attempt.save.Saved? then Ids(Batch(last.attempt.updates)) else []
  }

  /** Without crashes and handler failures every message returned is handled, once and in order; a failed
      request or save costs nothing. */
  lemma {:induction false} NothingLost(b: Backoff, events: seq<Event>)
    requires forall ev :: ev in events ==> Smooth(ev)
    ensures Run(b, events).handled == Answered(events)
  {
    if events != [] {
      var before, last := events[..|events| - 1], events[|events| - 1];
      assert last in events && Smooth(last);
      NothingLost(b, before);
    }
  }

  // ---- Backoff ----

  /** Failures in a row that the present delay has seen: a batch starts anew, even one whose handling
      then fails. */
  function Streak(events: seq<Event>): nat {
    if events == [] then 0
    else
      match events[|events| - 1]
      case Crash(_, _, _) => 0
      case Poll(RequestFails) => Streak(events[..|events| - 1]) + 1
      case Poll(Returns(us, save, raisesAt)) =>
        if us != [] && !save.Saved? then Streak(events[..|events| - 1]) + 1
        else if raisesAt.Some? && raisesAt.value < |Batch(us)| then 1
        else 0
  }

  function Doubled(x: real, n: nat): real {
    if n == 0 then x else 2.0 * Doubled(x, n - 1)
  }

  lemma {:induction false} DoubledGrows(x: real, n: nat)
    requires 0.0 <= x
    ensures 0.0 <= Doubled(x, n)
  {
    if n > 0 { DoubledGrows(x, n - 1); }
  }

  /** The delay before the next retry: the least one doubled for each failure in a row, capped. */
  lemma {:induction false} BackoffIs(b: Backoff, events: seq<Event>)
    requires 0.0 <= b.min && 0.0 <= b.max
    ensures
      var n := Streak(events);
      Run(b, events).backoff == if n == 0 then b.min else Lesser(Doubled(b.min, n), b.max)
  {
    hide Batch, MaxId, Acknowledged, Ids;
    if events != [] {
      var before := events[..|events| - 1];
      BackoffIs(b, before);
      DoubledGrows(b.min, Streak(before));
      assert Doubled(b.min, 1) == 2.0 * Doubled(b.min, 0) == 2.0 * b.min;
      assert Doubled(b.min, Streak(before) + 1) == 2.0 * Doubled(b.min, Streak(before));
    }
  }

  function Min(a: nat, b: nat): nat { if a < b then a else b }

  /** What an event hands over: nothing unless the save was whole; then all messages it was returned, or those
      up to and with the one whose handling raised, or those begun before a crash. */
  function HandedOver(ev: Event): seq<int> {
    var ids := Ids(Batch(Returned(ev)));
    match ev
    case Poll(RequestFails) => []
    case Poll(Returns(us, save, raisesAt)) =>
      if us != [] && save != Saved then []
      else if raisesAt == None then ids
      else ids[..Min(raisesAt.value + 1, |ids|)]
    case Crash(_, save, reached) => if save == Saved then ids[..Min(reached, |ids|)] else []
  }

  function AllHandedOver(events: seq<Event>): seq<int> {
    if events == [] then [] else AllHandedOver(events[..|events| - 1]) + HandedOver(events[|events| - 1])
  }

  lemma {:induction false} HandledIs(b: Backoff, events: seq<Event>)
    ensures Run(b, events).handled == AllHandedOver(events)
  {
    hide Batch, MaxId, Acknowledged, Stored, Lesser, Ids;
    if events != [] {
      HandledIs(b, events[..|events| - 1]);
      var ids := Ids(Batch(Returned(events[|events| - 1])));
      assert ids[..|ids|] == ids;
      NothingAnswered();
    }
  }

  lemma NothingAnswered()
    ensures Ids(Batch([])) == []
  {
  }

  // ---- What is saved, answered, waited and counted ----

  /** The messages to answer keep the order they were returned in. */
  lemma {:induction false} BatchKeepsOrder(u: Update, us: seq<Update>)
    ensures Batch([u] + us) == (if u.message == None then [] else [u]) + Batch(us)
  {
    var all := [u] + us;
    if us == [] {
      assert all == [u] && all[..0] == [];
    } else {
      var n := |us| - 1;
      BatchKeepsOrder(u, us[..n]);
      assert all[..n + 1] == [u] + us[..n] && all[n + 1] == us[n];
    }
  }

  /** The event got as far as emptying the offset file. */
  predicate Writes(ev: Event) {
    match ev
    case Poll(RequestFails) => false
    case Poll(Returns(us, save, _)) => us != [] && save != Refused
    case Crash(us, save, _) => us != [] && save != Refused
  }

  /** The offset is one more than the highest id the event was returned. */
  predicate PastAll(ev: Event, offset: Option<int>) {
    && offset.Some? && (exists u :: u in Returned(ev) && offset.value == u.id + 1)
    && forall u :: u in Returned(ev) ==> u.id < offset.value
  }

  /** The offset file reads as the last event that wrote it left it: one past the highest id it was returned,
      or nothing if its save was torn. So no message is skipped unseen. */
  lemma {:induction false} OffsetIsLastWritten(b: Backoff, events: seq<Event>)
    ensures (forall ev :: ev in events ==> !Writes(ev)) ==> Run(b, events).offset == None
    ensures forall i :: 0 <= i < |events| && Writes(events[i]) && (forall j :: i < j < |events| ==> !Writes(events[j])) ==>
              if Tears(events[i]) then Run(b, events).offset == None else PastAll(events[i], Run(b, events).offset)
  {
    hide Happen, Writes, PastAll, Tears;
    if events != [] {
      var before, last := events[..|events| - 1], events[|events| - 1];
      assert events == before + [last];
      OffsetIsLastWritten(b, before);
      OffsetAfter(b, Run(b, before), last);
    }
  }

  lemma OffsetAfter(b: Backoff, bot: Bot, ev: Event)
    ensures
      var offset := Happen(b, bot, ev).offset;
      if !Writes(ev) then offset == bot.offset else if Tears(ev) then offset == None else PastAll(ev, offset)
  {
    hide Batch, Ids, Lesser;
  }

  /** The event made the loop sleep: the request, the save or a handler raised. */
  predicate Raises(ev: Event) {
    match ev
    case Poll(RequestFails) => true
    case Poll(Returns(us, save, raisesAt)) =>
      (us != [] && save != Saved) || (raisesAt.Some? && raisesAt.value < |Batch(us)|)
    case Crash(_, _, _) => false
  }

  /** The sleeps of a run: after a handler's failure the least delay, after any other the least one doubled for
      each failure in a row before it, capped. */
  function Sleeps(b: Backoff, events: seq<Event>): seq<real> {
    if events == [] then []
    else
      var before, last := events[..|events| - 1], events[|events| - 1];
      var n := if last.Poll? && last.attempt.Returns? && (last.attempt.updates == [] || last.attempt.save == Saved) then 0
               else Streak(before);
      Sleeps(b, before) +
        if !Raises(last) then [] else if n == 0 then [b.min] else [Lesser(Doubled(b.min, n), b.max)]
  }

  /** The polls completed since the process started. */
  function Completed(events: seq<Event>): nat {
    if events == [] || events[|events| - 1].Crash? then 0
    else Completed(events[..|events| - 1]) + if Raises(events[|events| - 1]) then 0 else 1
  }

  lemma {:induction false} SleepsAndCycles(b: Backoff, events: seq<Event>)
    requires 0.0 <= b.min && 0.0 <= b.max
    ensures Run(b, events).slept == Sleeps(b, events) && Run(b, events).failures == |Sleeps(b, events)|
    ensures Run(b, events).cycles == Completed(events)
  {
    hide Batch, MaxId, Acknowledged, Stored, Lesser, Doubled;
    if events != [] {
      var before := events[..|events| - 1];
      SleepsAndCycles(b, before);
      BackoffIs(b, before);
    }
  }
}
