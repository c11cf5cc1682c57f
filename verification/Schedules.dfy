/** A run of whole calls is one of the interleavings. */
module Schedules {
  import opened StoreSpec
  import opened StoreRuns
  import opened WorkflowSpec
  import opened Interleavings
  import Succession

  type Whole = Succession.Whole

  function Acts(id: nat, n: nat): seq<Event> {
    seq(n, _ => Act(id))
  }

  /** Each call under its own number, begun and acted out before the next. */
  function EventsOf(calls: seq<Whole>): seq<Event> {
    if calls == [] then []
    else
      var n := |calls| - 1;
      EventsOf(calls[..n]) +
        match calls[n]
        case Pub(p) => [Publishing(p)]
        case Ask(req) => [Begin(n, req)] + Acts(n, 4)
  }

  lemma OneEvent(w: World, policy: Policy, es: seq<Event>, e: Event)
    ensures Run(w, policy, es + [e]) == Happen(w, policy, Run(w, policy, es), e)
    ensures Published(es + [e]) == AfterEvent(Published(es), e)
  {
    assert (es + [e])[..|es|] == es;
  }

  /** Acting on one call only takes that call's steps. */
  lemma {:induction false} ActsAreSteps(w: World, policy: Policy, es: seq<Event>, id: nat, n: nat)
    requires id in Run(w, policy, es).calls
    ensures
      var before, after := Run(w, policy, es), Run(w, policy, es + Acts(id, n));
      var (s, ph) := Steps(w, policy, before.store, before.calls[id], n);
      && after == Sys(s, before.calls[id := ph])
      && Published(es + Acts(id, n)) == Published(es)
    decreases n
  {
    hide Advance, Run, Published;
    var before := Run(w, policy, es);
    if n == 0 {
      assert es + Acts(id, 0) == es;
      assert before.calls[id := before.calls[id]] == before.calls;
    } else {
      var act := Act(id);
      OneEvent(w, policy, es, act);
      assert es + Acts(id, n) == (es + [act]) + Acts(id, n - 1);
      ActsAreSteps(w, policy, es + [act], id, n - 1);
    }
  }

  lemma CallIsEvents(w: World, policy: Policy, es: seq<Event>, id: nat, req: Request)
    requires id !in Run(w, policy, es).calls
    ensures
      var before := Run(w, policy, es);
      var longer := es + ([Begin(id, req)] + Acts(id, 4));
      && Run(w, policy, longer).store == Call(w, policy, before.store, req).0
      && Run(w, policy, longer).calls.Keys == before.calls.Keys + {id}
      && Published(longer) == Published(es)
  {
    hide Run, Published, Call, Steps;
    var begin := Begin(id, req);
    OneEvent(w, policy, es, begin);
    ActsAreSteps(w, policy, es + [begin], id, 4);
    SoloIsCall(w, policy, Run(w, policy, es).store, req);
    assert es + ([begin] + Acts(id, 4)) == (es + [begin]) + Acts(id, 4);
  }

  /** Each version's first publication, read off the calls alone. */
  function PublishedIn(calls: seq<Whole>): Pubs {
    if calls == [] then map[]
    else
      var before, last := PublishedIn(calls[..|calls| - 1]), calls[|calls| - 1];
      if last.Pub? then First(before, last.p) else before
  }

  lemma {:induction false} CallsAreEvents(w: World, policy: Policy, calls: seq<Whole>)
    ensures
      var sys := Run(w, policy, EventsOf(calls));
      && sys.store == Succession.RunWhole(w, policy, calls)
      && Published(EventsOf(calls)) == PublishedIn(calls)
      && forall id :: id in sys.calls ==> id < |calls|
  {
    hide Run, Published, Call;
    if calls == [] {
      NothingHappened(w, policy);
    } else {
      var n := |calls| - 1;
      var es := EventsOf(calls[..n]);
      CallsAreEvents(w, policy, calls[..n]);
      match calls[n]
      case Pub(p) => OneEvent(w, policy, es, Publishing(p));
      case Ask(req) => CallIsEvents(w, policy, es, n, req);
    }
  }

  lemma NothingHappened(w: World, policy: Policy)
    ensures Run(w, policy, []) == Sys(EMPTY, map[])
    ensures Published([]) == map[]
  {
  }
}
