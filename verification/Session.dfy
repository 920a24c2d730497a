/** Session windows (correlate/session.py; the restore loop of correlate/worker.py).
    Times are reals, in seconds. */
module Session {
  import opened Wrappers

  /** `trigger`: a quality breach. */
  datatype Event = Event(service: string, environment: string, time: real, trigger: bool)

  datatype Domain = Domain(service: string, environment: string)

  datatype Window = Window(events: seq<Event>, openedAt: real, lastEventAt: real, hasTrigger: bool)

  type Windows = map<Domain, Window>

  /** Gap and maximum duration. */
  datatype Limits = Limits(gap: real, duration: real)

  function DomainOf(e: Event): Domain { Domain(e.service, e.environment) }

  predicate ShouldClose(w: Window, now: real, limits: Limits) {
    now - w.lastEventAt >= limits.gap || now - w.openedAt >= limits.duration || w.hasTrigger
  }

  // ---------- what each operation makes of the windows ----------

  function Earlier(a: real, b: real): real { if a < b then a else b }

  function Later(a: real, b: real): real { if a > b then a else b }

  /** The window an event goes to, opened if need be. */
  function WindowFor(ws: Windows, e: Event, now: real): Window {
    if DomainOf(e) in ws then ws[DomainOf(e)] else Window([], Earlier(e.time, now), e.time, false)
  }

  function Ingested(ws: Windows, e: Event, now: real): Windows {
    var w := WindowFor(ws, e, now);
    ws[DomainOf(e) := Window(w.events + [e], w.openedAt, Later(w.lastEventAt, e.time), w.hasTrigger || e.trigger)]
  }

  function StillOpen(ws: Windows, now: real, limits: Limits): Windows {
    map d | d in ws && !ShouldClose(ws[d], now, limits) :: ws[d]
  }

  function Closing(ws: Windows, now: real, limits: Limits): Windows {
    map d | d in ws && ShouldClose(ws[d], now, limits) :: ws[d]
  }

  class SessionWindowManager {
    const limits: Limits
    var windows: Windows

    constructor (limits: Limits)
      ensures this.limits == limits && windows == map[]
    {
      this.limits, windows := limits, map[];
    }

    method Ingest(e: Event, now: real)
      modifies this
      ensures windows == Ingested(old(windows), e, now)
    {
      var d := DomainOf(e);
      if d !in windows {
        windows := windows[d := Window([], if e.time < now then e.time else now, e.time, false)];
      }
      var w := windows[d];
      w := w.(events := w.events + [e]);
      if e.time > w.lastEventAt { w := w.(lastEventAt := e.time); }
      if e.trigger { w := w.(hasTrigger := true); }
      windows := windows[d := w];
    }

    method CloseReady(now: real) returns (closed: Windows)
      modifies this
      ensures windows == StillOpen(old(windows), now, limits) && closed == Closing(old(windows), now, limits)
    {
      closed := map[];
      ghost var was := windows;
      var todo := windows.Keys;
      while todo != {}
        invariant todo <= was.Keys
        invariant windows == map d | d in was && (d in todo || !ShouldClose(was[d], now, limits)) :: was[d]
        invariant closed == map d | d in was && d !in todo && ShouldClose(was[d], now, limits) :: was[d]
      {
        var d :| d in todo;
        if ShouldClose(windows[d], now, limits) {
          closed := closed[d := windows[d]];
          windows := windows - {d};
        }
        todo := todo - {d};
      }
    }
  }

  // ---------- what each operation means ----------

  /** An event goes to the window of its service and environment. A new window opens at the event
      or now, whichever is earlier; the last time is the latest seen, and a trigger stays. */
  lemma IngestMeans(ws: Windows, e: Event, now: real, d: Domain)
    ensures var ws', own := Ingested(ws, e, now), Domain(e.service, e.environment);
            && own in ws' && (d != own ==> (d in ws' <==> d in ws) && (d in ws ==> ws'[d] == ws[d]))
            && var w := ws'[own];
               if own in ws then
                 && w.events == ws[own].events + [e] && w.openedAt == ws[own].openedAt
                 && w.lastEventAt >= e.time && w.lastEventAt >= ws[own].lastEventAt
                 && w.lastEventAt in {e.time, ws[own].lastEventAt}
                 && (w.hasTrigger <==> ws[own].hasTrigger || e.trigger)
               else
                 && w.events == [e] && w.openedAt <= e.time && w.openedAt <= now && w.openedAt in {e.time, now}
                 && w.lastEventAt == e.time && (w.hasTrigger <==> e.trigger)
  {
  }

  /** Closing removes and returns exactly the windows that are triggered or have reached a limit:
      quiet for the gap, or open for the maximum duration. The others stay as they are. */
  lemma CloseMeans(ws: Windows, now: real, limits: Limits, d: Domain)
    requires d in ws
    ensures var open, closed := StillOpen(ws, now, limits), Closing(ws, now, limits);
            if ws[d].hasTrigger || now >= ws[d].lastEventAt + limits.gap || now >= ws[d].openedAt + limits.duration
            then d !in open && d in closed && closed[d] == ws[d]
            else d in open && open[d] == ws[d] && d !in closed
  {
  }

  // ---------- a run without restart ----------

  datatype Step = Ingest(event: Event, now: real) | CloseReady(now: real)

  /** The open windows, and for each domain the closed ones in closing order. */
  datatype History = History(open: Windows, closed: map<Domain, seq<Window>>)

  function ClosedOf(h: History, d: Domain): seq<Window> { if d in h.closed then h.closed[d] else [] }

  function After(h: History, a: Step, limits: Limits): History {
    match a
    case Ingest(e, now) => h.(open := Ingested(h.open, e, now))
    case CloseReady(now) =>
      History(StillOpen(h.open, now, limits),
              map d | d in h.closed.Keys + h.open.Keys ::
                ClosedOf(h, d) + if d in Closing(h.open, now, limits) then [h.open[d]] else [])
  }

  function RunOf(steps: seq<Step>, limits: Limits): History {
    if |steps| == 0 then History(map[], map[])
    else After(RunOf(steps[..|steps| - 1], limits), steps[|steps| - 1], limits)
  }

  /** The events a run ingested for a domain, in order. */
  function Received(steps: seq<Step>, d: Domain): seq<Event> {
    if |steps| == 0 then []
    else
      var last := steps[|steps| - 1];
      Received(steps[..|steps| - 1], d) + if last.Ingest? && DomainOf(last.event) == d then [last.event] else []
  }

  function EventsIn(ws: seq<Window>): seq<Event> {
    if |ws| == 0 then [] else EventsIn(ws[..|ws| - 1]) + ws[|ws| - 1].events
  }

  function OpenEvents(h: History, d: Domain): seq<Event> { if d in h.open then h.open[d].events else [] }

  /** MAIN: at every moment the closed windows of a domain, in closing order, followed by its
      open window, hold exactly the events ingested for it, in order, each once. */
  lemma {:induction false} EveryEventInOneWindow(steps: seq<Step>, limits: Limits, d: Domain)
    ensures var h := RunOf(steps, limits); EventsIn(ClosedOf(h, d)) + OpenEvents(h, d) == Received(steps, d)
  {
    if |steps| > 0 {
      var h, a := RunOf(steps[..|steps| - 1], limits), steps[|steps| - 1];
      EveryEventInOneWindow(steps[..|steps| - 1], limits, d);
      match a {
        case Ingest(e, now) =>
          if DomainOf(e) == d { IngestAppends(h.open, e, now); }
        case CloseReady(now) =>
          if d in Closing(h.open, now, limits) {
            var ws := ClosedOf(h, d);
            assert (ws + [h.open[d]])[..|ws|] == ws;
          } else {
            assert ClosedOf(h, d) + [] == ClosedOf(h, d);
          }
      }
    }
  }

  lemma IngestAppends(ws: Windows, e: Event, now: real)
    ensures Ingested(ws, e, now)[DomainOf(e)].events == (if DomainOf(e) in ws then ws[DomainOf(e)].events else []) + [e]
  {
  }

  /** A window has events, all of its domain; it opened no later than the first, however stale
      that one was; its last time is the latest of them; it is triggered iff one of them is. */
  ghost predicate Sane(d: Domain, w: Window) {
    && w.events != [] && w.openedAt <= w.events[0].time && w.openedAt <= w.lastEventAt
    && (exists i :: 0 <= i < |w.events| && w.events[i].time == w.lastEventAt)
    && (forall i :: 0 <= i < |w.events| ==> DomainOf(w.events[i]) == d && w.events[i].time <= w.lastEventAt)
    && (w.hasTrigger <==> exists i :: 0 <= i < |w.events| && w.events[i].trigger)
  }

  lemma IngestedIsSane(ws: Windows, e: Event, now: real)
    requires DomainOf(e) in ws ==> Sane(DomainOf(e), ws[DomainOf(e)])
    ensures Sane(DomainOf(e), Ingested(ws, e, now)[DomainOf(e)])
  {
    var w, w' := WindowFor(ws, e, now), Ingested(ws, e, now)[DomainOf(e)];
    assert w'.events[|w.events|] == e;
    assert forall i :: 0 <= i < |w.events| ==> w'.events[i] == w.events[i];
  }

  ghost predicate AllSane(h: History) {
    && (forall d :: d in h.open ==> Sane(d, h.open[d]))
    && (forall d, i :: d in h.closed && 0 <= i < |h.closed[d]| ==> Sane(d, h.closed[d][i]))
  }

  lemma StepKeepsSane(h: History, a: Step, limits: Limits)
    requires AllSane(h)
    ensures AllSane(After(h, a, limits))
  {
    hide Sane;
    if a.Ingest? {
      IngestKeepsSane(h, a.event, a.now, limits);
    } else {
      var h' := After(h, a, limits);
      forall d, i | d in h'.closed && 0 <= i < |h'.closed[d]|
        ensures Sane(d, h'.closed[d][i])
      {
        if i < |ClosedOf(h, d)| {
          assert h'.closed[d][i] == h.closed[d][i];
        } else {
          assert h'.closed[d][i] == h.open[d];
        }
      }
    }
  }

  lemma IngestKeepsSane(h: History, e: Event, now: real, limits: Limits)
    requires AllSane(h)
    ensures AllSane(After(h, Ingest(e, now), limits))
  {
    IngestedIsSane(h.open, e, now);
  }

  lemma {:induction false} WindowsAreSane(steps: seq<Step>, limits: Limits)
    ensures AllSane(RunOf(steps, limits))
  {
    hide AllSane, After;
    if |steps| > 0 {
      WindowsAreSane(steps[..|steps| - 1], limits);
      StepKeepsSane(RunOf(steps[..|steps| - 1], limits), steps[|steps| - 1], limits);
    } else {
      NothingIsSane();
    }
  }

  lemma NothingIsSane()
    ensures AllSane(History(map[], map[]))
  {
  }

  // ---------- restart ----------

  datatype Metadata = Metadata(openedAt: real, lastEventAt: real, hasTrigger: bool)

  function MetadataOf(w: Window): Metadata { Metadata(w.openedAt, w.lastEventAt, w.hasTrigger) }

  function TextOf(d: Domain): string { d.service + ":" + d.environment }

  /** A key split at its first colon; None without one. */
  function ParseDomain(key: string): Option<Domain> {
    if key == "" then None
    else if key[0] == ':' then Some(Domain("", key[1..]))
    else
      match ParseDomain(key[1..])
      case None => None
      case Some(d) => Some(Domain([key[0]] + d.service, d.environment))
  }

  lemma {:induction false} ParseText(service: string, environment: string)
    ensures ':' !in service ==> ParseDomain(service + ":" + environment) == Some(Domain(service, environment))
    ensures ParseDomain(service + ":" + environment).Some?
    ensures ':' !in ParseDomain(service + ":" + environment).value.service
    decreases |service|
  {
    var text := service + ":" + environment;
    if service == "" {
      assert text[1..] == environment;
    } else {
      assert text[1..] == service[1..] + ":" + environment;
      assert service == [service[0]] + service[1..];
      ParseText(service[1..], environment);
    }
  }

  /** A domain survives its text exactly if its service has no colon. */
  lemma DomainRoundTripsIff(d: Domain)
    ensures ParseDomain(TextOf(d)) == Some(d) <==> ':' !in d.service
  {
    ParseText(d.service, d.environment);
  }

  function Texts(ws: Windows): set<string> { set d | d in ws :: TextOf(d) }

  /** A domain with the given text; of several, one is kept. */
  ghost function Written(ws: Windows, key: string): (d: Domain)
    requires key in Texts(ws)
    ensures d in ws && TextOf(d) == key
  {
    var d :| d in ws && TextOf(d) == key; d
  }

  /** `to_state`. */
  ghost function ToState(ws: Windows): map<string, Metadata> {
    map key | key in Texts(ws) :: MetadataOf(ws[Written(ws, key)])
  }

  predicate Names(key: string, d: Domain) { ParseDomain(key) == Some(d) }

  lemma {:induction false} NamedByText(key: string, d: Domain)
    requires Names(key, d)
    ensures key == TextOf(d)
    decreases |key|
  {
    if key[0] != ':' { NamedByText(key[1..], ParseDomain(key[1..]).value); }
  }

  /** The restore loop over the saved keys. */
  method Restore(state: map<string, Metadata>) returns (ws: Windows)
    ensures RestoredFrom(ws, state)
  {
    ws := map[];
    var todo := state.Keys;
    while todo != {}
      invariant todo <= state.Keys
      invariant forall d :: d in ws ==> exists key :: key in state && key !in todo && Names(key, d)
      invariant forall key, d :: key in state && key !in todo && Names(key, d) ==>
                  d in ws && IsRestored(ws[d], state[key])
    {
      var key :| key in todo;
      var d := ParseDomain(key);
      forall other, e | Names(other, e)
        ensures other == TextOf(e)
      {
        NamedByText(other, e);
      }
      if d.Some? {
        ws := ws[d.value := Window([], state[key].openedAt, state[key].lastEventAt, state[key].hasTrigger)];
        assert Names(key, d.value);
      }
      todo := todo - {key};
    }
  }

  predicate IsRestored(w: Window, m: Metadata) { w.events == [] && MetadataOf(w) == m }

  /** Exactly the domains the keys name, each with its saved metadata and no events. */
  ghost predicate RestoredFrom(ws: Windows, state: map<string, Metadata>) {
    && (forall d :: d in ws ==> exists key :: key in state && Names(key, d))
    && (forall key, d :: key in state && Names(key, d) ==> d in ws && IsRestored(ws[d], state[key]))
  }

  predicate NoColons(ws: Windows) { forall d :: d in ws ==> ':' !in d.service }

  /** The same windows but for the events they hold. */
  predicate Alike(ws: Windows, vs: Windows) {
    ws.Keys == vs.Keys && forall d :: d in ws ==> MetadataOf(ws[d]) == MetadataOf(vs[d])
  }

  lemma TextsNameDomains(ws: Windows, d: Domain)
    requires NoColons(ws) && d in ws
    ensures TextOf(d) in Texts(ws) && Written(ws, TextOf(d)) == d && Names(TextOf(d), d)
  {
    assert TextOf(d) in Texts(ws);
    DomainRoundTripsIff(d);
    DomainRoundTripsIff(Written(ws, TextOf(d)));
  }

  /** MAIN: restoring the saved state gives every window back, but for its events. */
  lemma RestoreIsAlike(ws: Windows, vs: Windows)
    requires NoColons(ws) && RestoredFrom(vs, ToState(ws))
    ensures Alike(ws, vs)
  {
    hide RestoredFrom, ToState;
    forall d
      ensures d in ws <==> d in vs
      ensures d in ws ==> MetadataOf(ws[d]) == MetadataOf(vs[d])
    {
      RestoredAt(ws, vs, d);
    }
  }

  lemma RestoredAt(ws: Windows, vs: Windows, d: Domain)
    requires NoColons(ws) && RestoredFrom(vs, ToState(ws))
    ensures d in ws <==> d in vs
    ensures d in ws ==> MetadataOf(ws[d]) == MetadataOf(vs[d])
  {
    hide Texts, MetadataOf, NoColons;
    if d in ws {
      TextsNameDomains(ws, d);
      assert TextOf(d) in ToState(ws);
    } else if d in vs {
      var key :| key in ToState(ws) && Names(key, d);
      TextsNameDomains(ws, Written(ws, key));
    }
  }

  /** With a colon in its service, a domain shares its text with another domain, so saving
      both loses one and restoring either gives the wrong one back. */
  lemma ColonsCollide(d: Domain)
    requires ':' in d.service
    ensures exists e :: e != d && TextOf(e) == TextOf(d) && Names(TextOf(d), e)
  {
    ParseText(d.service, d.environment);
    DomainRoundTripsIff(d);
    var e := ParseDomain(TextOf(d)).value;
    NamedByText(TextOf(d), e);
    assert e != d && TextOf(e) == TextOf(d) && Names(TextOf(d), e);
  }

  /** Windows alike stay alike under the same events and close at the same moments. */
  lemma AlikeCloseTogether(ws: Windows, vs: Windows, e: Event, now: real, limits: Limits)
    requires Alike(ws, vs)
    ensures Alike(Ingested(ws, e, now), Ingested(vs, e, now))
    ensures Alike(StillOpen(ws, now, limits), StillOpen(vs, now, limits))
    ensures Closing(ws, now, limits).Keys == Closing(vs, now, limits).Keys
  {
    assert forall d :: d in ws ==> MetadataOf(ws[d]) == MetadataOf(vs[d]);
    forall d | d in ws
      ensures ShouldClose(ws[d], now, limits) <==> ShouldClose(vs[d], now, limits)
    {
      assert MetadataOf(ws[d]) == MetadataOf(vs[d]);
    }
  }

  function Continued(h: History, steps: seq<Step>, limits: Limits): History {
    if |steps| == 0 then h else After(Continued(h, steps[..|steps| - 1], limits), steps[|steps| - 1], limits)
  }

  /** MAIN: after a restart the windows open and close exactly when they would have without
      it, whatever arrives later. */
  lemma {:induction false} RestartIsInvisibleToClosing(ws: Windows, vs: Windows, steps: seq<Step>, limits: Limits)
    requires NoColons(ws) && RestoredFrom(vs, ToState(ws))
    ensures Alike(Continued(History(ws, map[]), steps, limits).open, Continued(History(vs, map[]), steps, limits).open)
  {
    if |steps| == 0 {
      RestoreIsAlike(ws, vs);
    } else {
      RestartIsInvisibleToClosing(ws, vs, steps[..|steps| - 1], limits);
      var a := steps[|steps| - 1];
      var v := Continued(History(ws, map[]), steps[..|steps| - 1], limits).open;
      var v' := Continued(History(vs, map[]), steps[..|steps| - 1], limits).open;
      AlikeCloseTogether(v, v', if a.Ingest? then a.event else Event("", "", 0.0, false), a.now, limits);
    }
  }
}
