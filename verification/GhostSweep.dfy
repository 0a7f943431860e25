/** The sweep at the end of postStart: it clears the maintenance mode that earlier incarnations of the pod left
    behind under other node ids. */
module GhostSweep {
  import opened Wrappers

  /** What the sweep reads off a broker's record. */
  datatype Record = Record(address: string, draining: bool, reportedDead: bool)

  datatype Event =
    | Listed(ids: seq<string>)
    | Fetched(id: string, record: Option<Record>)
    | Deleted(id: string, status: string)

  predicate Done(status: string) {
    status == "200" || status == "400" || status == "404"
  }

  /** A record of this pod's address that is draining: a ghost, once it is also reported dead. */
  predicate Drainer(r: Record, fqdn: string) {
    r.address == fqdn && r.draining
  }

  /// ## What a log of requests must satisfy

  /** The events since the last list of brokers: one pass of the sweep. */
  function Pass(log: seq<Event>): seq<Event> {
    if log == [] || log[|log| - 1].Listed? then []
    else Pass(log[..|log| - 1]) + [log[|log| - 1]]
  }

  /** The brokers that the current pass goes through. */
  function PassIds(log: seq<Event>): Option<seq<string>> {
    if log == [] then None
    else if log[|log| - 1].Listed? then Some(log[|log| - 1].ids)
    else PassIds(log[..|log| - 1])
  }

  /** In `pass`, the record of `id` was read and shows a ghost of this pod. */
  ghost predicate KnownGhost(pass: seq<Event>, id: string, fqdn: string) {
    exists r :: Fetched(id, Some(r)) in pass && r.address == fqdn && r.draining && r.reportedDead
  }

  /** Maintenance mode is only ever cleared on other brokers that the same pass has read as ghosts of this pod. */
  ghost predicate Safe(log: seq<Event>, node: string, fqdn: string) {
    forall i :: 0 <= i < |log| && log[i].Deleted? ==> log[i].id != node && KnownGhost(Pass(log[..i]), log[i].id, fqdn)
  }

  /** Every drainer at this pod's address that the pass read is reported dead. */
  ghost predicate AllDead(pass: seq<Event>, fqdn: string) {
    forall id, r :: Fetched(id, Some(r)) in pass && r.address == fqdn && r.draining ==> r.reportedDead
  }

  /** The brokers are listed anew only after a pass that read a drainer at this address still reported alive. */
  ghost predicate Needed(log: seq<Event>, fqdn: string) {
    forall i :: 0 <= i < |log| && log[i].Listed? ==> PassIds(log[..i]) == None || !AllDead(Pass(log[..i]), fqdn)
  }

  ghost predicate Legal(log: seq<Event>, node: string, fqdn: string) {
    Safe(log, node, fqdn) && Needed(log, fqdn)
  }

  predicate Cleared(pass: seq<Event>, id: string) {
    Deleted(id, "200") in pass || Deleted(id, "400") in pass || Deleted(id, "404") in pass
  }

  ghost predicate Visited(pass: seq<Event>, id: string) {
    exists r :: Fetched(id, r) in pass
  }

  /** Every drainer at this pod's address that the pass read was cleared. */
  ghost predicate AllCleared(pass: seq<Event>, fqdn: string) {
    forall id, r :: Fetched(id, Some(r)) in pass && r.address == fqdn && r.draining ==> Cleared(pass, id)
  }

  /** The last pass asked for every other broker and cleared every drainer at this pod's address that it read. */
  ghost predicate Swept(log: seq<Event>, node: string, fqdn: string) {
    && PassIds(log).Some?
    && (forall id :: id in PassIds(log).value && id != node ==> Visited(Pass(log), id))
    && AllCleared(Pass(log), fqdn)
  }

  /** One request more. */
  lemma {:induction false} LegalStep(log: seq<Event>, e: Event, node: string, fqdn: string)
    requires Legal(log, node, fqdn)
    requires e.Deleted? ==> e.id != node && KnownGhost(Pass(log), e.id, fqdn)
    requires e.Listed? ==> PassIds(log) == None || !AllDead(Pass(log), fqdn)
    ensures Legal(log + [e], node, fqdn)
    ensures Pass(log + [e]) == if e.Listed? then [] else Pass(log) + [e]
    ensures PassIds(log + [e]) == if e.Listed? then Some(e.ids) else PassIds(log)
  {
    var all := log + [e];
    assert all[..|all| - 1] == log && all[..|log|] == log;
    forall i | 0 <= i < |all| && all[i].Deleted?
      ensures all[i].id != node && KnownGhost(Pass(all[..i]), all[i].id, fqdn)
    {
      if i < |log| { assert all[..i] == log[..i]; }
    }
    forall i | 0 <= i < |all| && all[i].Listed? ensures PassIds(all[..i]) == None || !AllDead(Pass(all[..i]), fqdn) {
      if i < |log| { assert all[..i] == log[..i]; }
    }
  }

  /// ## The sweep

  /** How a part of the sweep goes: its requests, whether a live drainer was seen, whether the answers sufficed, and the
      answers that are left. */
  datatype Part = Part(events: seq<Event>, remains: bool, alive: bool, records: seq<Option<Record>>, statuses: seq<string>)

  function Before(events: seq<Event>, p: Part): Part {
    p.(events := events + p.events)
  }

  /** Deletes until an answer is 200, 400 or 404. */
  function ClearRun(id: string, records: seq<Option<Record>>, statuses: seq<string>): Part {
    if statuses == [] then Part([], false, false, records, [])
    else if Done(statuses[0]) then Part([Deleted(id, statuses[0])], false, true, records, statuses[1..])
    else Before([Deleted(id, statuses[0])], ClearRun(id, records, statuses[1..]))
  }

  function VisitRun(id: string, node: string, fqdn: string, records: seq<Option<Record>>, statuses: seq<string>): Part {
    if id == node then Part([], false, true, records, statuses)
    else if records == [] then Part([], false, false, records, statuses)
    else
      var e := [Fetched(id, records[0])];
      if records[0] == None || !Drainer(records[0].value, fqdn) then Part(e, false, true, records[1..], statuses)
      else if !records[0].value.reportedDead then Part(e, true, true, records[1..], statuses)
      else Before(e, ClearRun(id, records[1..], statuses))
  }

  function PassRun(ids: seq<string>, node: string, fqdn: string, records: seq<Option<Record>>, statuses: seq<string>): Part {
    if ids == [] then Part([], false, true, records, statuses)
    else
      var first := VisitRun(ids[0], node, fqdn, records, statuses);
      if !first.alive then first
      else
        var rest := PassRun(ids[1..], node, fqdn, first.records, first.statuses);
        Before(first.events, rest.(remains := first.remains || rest.remains))
  }

  /** All the requests of a sweep, and whether it came to an end. */
  function SweepRun(node: string, fqdn: string, lists: seq<seq<string>>, records: seq<Option<Record>>, statuses: seq<string>): (seq<Event>, bool)
    decreases |lists|
  {
    if lists == [] then ([], false)
    else if lists[0] == [] then SweepRun(node, fqdn, lists[1..], records, statuses)
    else
      var pass := PassRun(lists[0], node, fqdn, records, statuses);
      var events := [Listed(lists[0])] + pass.events;
      if !pass.alive then (events, false)
      else if !pass.remains then (events, true)
      else
        var rest := SweepRun(node, fqdn, lists[1..], pass.records, pass.statuses);
        (events + rest.0, rest.1)
  }

  /** The requests made so far, and those of a run that goes on from here. */
  function After(log: seq<Event>, run: (seq<Event>, bool)): (seq<Event>, bool) {
    (log + run.0, run.1)
  }

  /** What follows an answer that names brokers. */
  lemma {:induction false} RunStep(log: seq<Event>, ids: seq<string>, node: string, fqdn: string, lists: seq<seq<string>>,
                records: seq<Option<Record>>, statuses: seq<string>)
    requires ids != []
    ensures var p := PassRun(ids, node, fqdn, records, statuses);
            var log1 := log + [Listed(ids)] + p.events;
            After(log, SweepRun(node, fqdn, [ids] + lists, records, statuses))
            == if !p.alive then (log1, false)
               else if !p.remains then (log1, true)
               else After(log1, SweepRun(node, fqdn, lists, p.records, p.statuses))
  {
    hide PassRun;
    assert ([ids] + lists)[1..] == lists;
    var p := PassRun(ids, node, fqdn, records, statuses);
    var rest := SweepRun(node, fqdn, lists, p.records, p.statuses);
    assert log + [Listed(ids)] + p.events == log + ([Listed(ids)] + p.events);
    assert log + [Listed(ids)] + p.events + rest.0 == log + ([Listed(ids)] + p.events + rest.0);
  }

  /** The sweep's process.  The answers it will get are given in advance, in order; when it asks for one more than
      there are, its timeout has stopped it. */
  class Sweeper {
    var lists: seq<seq<string>>           // the ids in an answer; none when the request failed
    var records: seq<Option<Record>>
    var statuses: seq<string>
    var log: seq<Event>

    constructor (lists: seq<seq<string>>, records: seq<Option<Record>>, statuses: seq<string>)
      ensures this.lists == lists && this.records == records && this.statuses == statuses && log == []
    {
      this.lists, this.records, this.statuses, this.log := lists, records, statuses, [];
    }

    /** `until BROKER_IDS=...`: asks for the brokers until the answer names some. */
    method List(node: string, fqdn: string) returns (ids: Option<seq<string>>)
      requires Legal(log, node, fqdn)
      requires PassIds(log) == None || !AllDead(Pass(log), fqdn)
      modifies `lists, `log
      ensures Legal(log, node, fqdn)
      ensures ids.Some? ==> ids.value != [] && PassIds(log) == ids && Pass(log) == [] && |lists| < |old(lists)|
      ensures ids.Some? ==> log == old(log) + [Listed(ids.value)]
      ensures ids.Some? ==>
                SweepRun(node, fqdn, old(lists), records, statuses) == SweepRun(node, fqdn, [ids.value] + lists, records, statuses)
      ensures ids.None? ==> log == old(log) && SweepRun(node, fqdn, old(lists), records, statuses) == ([], false)
    {
      ids := None;
      while lists != []
        invariant Legal(log, node, fqdn) && log == old(log)
        invariant |lists| <= |old(lists)|
        invariant SweepRun(node, fqdn, old(lists), records, statuses) == SweepRun(node, fqdn, lists, records, statuses)
        decreases |lists|
      {
        var answer := lists[0];
        assert answer != [] ==> lists == [answer] + lists[1..];
        lists := lists[1..];
        if answer != [] {
          LegalStep(log, Listed(answer), node, fqdn);
          log := log + [Listed(answer)];
          return Some(answer);
        }
      }
    }

    /** Deletes until the answer is 200, 400 or 404. */
    method Clear(id: string, ghost node: string, ghost fqdn: string) returns (alive: bool)
      requires Legal(log, node, fqdn) && id != node && KnownGhost(Pass(log), id, fqdn)
      modifies `statuses, `log
      ensures Legal(log, node, fqdn) && PassIds(log) == PassIds(old(log))
      ensures Pass(old(log)) <= Pass(log)
      ensures forall e :: e in Pass(log) && e !in Pass(old(log)) ==> e.Deleted?
      ensures alive ==> Cleared(Pass(log), id)
      ensures var p := ClearRun(id, records, old(statuses)); log == old(log) + p.events && alive == p.alive && statuses == p.statuses
    {
      hide Pass, PassIds, Legal;
      ClearLegal(log, id, records, statuses, node, fqdn);
      var status := "";
      alive := true;
      while !Done(status)
        invariant alive
        invariant var p, q := ClearRun(id, records, old(statuses)), ClearRun(id, records, statuses);
                  if Done(status) then p.alive && log == old(log) + p.events && statuses == p.statuses
                  else old(log) + p.events == log + q.events && p.alive == q.alive && p.statuses == q.statuses
        decreases |statuses|
      {
        if statuses == [] {
          assert log + [] == log;
          return false;
        }
        status := statuses[0];
        ghost var q := ClearRun(id, records, statuses[1..]);
        assert log + [Deleted(id, status)] + q.events == log + ([Deleted(id, status)] + q.events);
        log := log + [Deleted(id, status)];
        statuses := statuses[1..];
      }
    }

    /** The body of the loop over the brokers.  `remains` says that the broker is a drainer at this address that
        is still reported alive. */
    method Visit(id: string, node: string, fqdn: string) returns (remains: bool, alive: bool)
      requires Legal(log, node, fqdn)
      modifies `records, `statuses, `log
      ensures Legal(log, node, fqdn) && PassIds(log) == PassIds(old(log))
      ensures Pass(old(log)) <= Pass(log)
      ensures alive && id != node ==> Visited(Pass(log), id)
      ensures alive && !remains && AllCleared(Pass(old(log)), fqdn) ==> AllCleared(Pass(log), fqdn)
      ensures remains ==> !AllDead(Pass(log), fqdn)
      ensures var p := VisitRun(id, node, fqdn, old(records), old(statuses));
              log == old(log) + p.events && remains == p.remains && alive == p.alive && records == p.records && statuses == p.statuses
    {
      hide Pass, PassIds, Legal;
      remains, alive := false, true;
      if id == node { return; }
      if records == [] { return false, false; }
      var fetched := records[0];
      records := records[1..];
      var e := Fetched(id, fetched);
      LegalStep(log, e, node, fqdn);
      log := log + [e];
      assert e in Pass(log);
      if fetched == None || fetched.value.address != fqdn || !fetched.value.draining {
        KeepsCleared(Pass(old(log)), Pass(log), fqdn);
        return;
      }
      if !fetched.value.reportedDead {
        return true, true;
      }
      assert KnownGhost(Pass(log), id, fqdn);
      ghost var pass, before := Pass(log), log;
      alive := Clear(id, node, fqdn);
      NeverRemains(id, records, old(statuses));
      assert before + ClearRun(id, records, old(statuses)).events == old(log) + ([e] + ClearRun(id, records, old(statuses)).events);
      if alive {
        assert e in pass && e in Pass(log);
        KeepsCleared(Pass(old(log)), Pass(log), fqdn);
      }
    }

    /** One pass over the listed brokers. */
    method Sweep(ids: seq<string>, node: string, fqdn: string) returns (remain: bool, alive: bool)
      requires Legal(log, node, fqdn) && Pass(log) == [] && PassIds(log) == Some(ids)
      modifies `records, `statuses, `log
      ensures Legal(log, node, fqdn) && PassIds(log) == Some(ids)
      ensures alive ==> if remain then !AllDead(Pass(log), fqdn) else Swept(log, node, fqdn)
      ensures var p := PassRun(ids, node, fqdn, old(records), old(statuses));
              log == old(log) + p.events && alive == p.alive
              && (alive ==> remain == p.remains && records == p.records && statuses == p.statuses)
    {
      hide Pass, PassIds, Legal, VisitRun;
      remain, alive := false, true;
      var i := 0;
      while i < |ids|
        invariant 0 <= i <= |ids| && alive
        invariant Legal(log, node, fqdn) && PassIds(log) == Some(ids)
        invariant forall j :: 0 <= j < i && ids[j] != node ==> Visited(Pass(log), ids[j])
        invariant if remain then !AllDead(Pass(log), fqdn) else AllCleared(Pass(log), fqdn)
        invariant var p, q := PassRun(ids, node, fqdn, old(records), old(statuses)), PassRun(ids[i..], node, fqdn, records, statuses);
                  old(log) + p.events == log + q.events && p.alive == q.alive
                  && (p.alive ==> p.remains == (remain || q.remains) && p.records == q.records && p.statuses == q.statuses)
      {
        ghost var pass := Pass(log);
        assert ids[i..][0] == ids[i] && ids[i..][1..] == ids[i + 1..];
        ghost var q := PassRun(ids[i..], node, fqdn, records, statuses);
        ghost var v := VisitRun(ids[i], node, fqdn, records, statuses);
        ghost var before := log;
        var remains: bool;
        remains, alive := Visit(ids[i], node, fqdn);
        if !alive { return; }
        assert before + q.events == log + PassRun(ids[i + 1..], node, fqdn, records, statuses).events;
        forall j | 0 <= j < i && ids[j] != node ensures Visited(Pass(log), ids[j]) {
          assert Visited(pass, ids[j]);
        }
        if remain { StaysLive(pass, Pass(log), fqdn); }
        remain := remain || remains;
        i := i + 1;
      }
    }

    /** Passes over all brokers until none of them is a drainer at this address that is still reported alive. */
    method Run(node: string, fqdn: string) returns (finished: bool)
      requires log == []
      modifies this
      ensures Legal(log, node, fqdn)
      ensures finished ==> Swept(log, node, fqdn)
      ensures (log, finished) == SweepRun(node, fqdn, old(lists), old(records), old(statuses))
    {
      hide Pass, PassIds, Legal, PassRun, SweepRun, AllDead, Swept;
      EmptyLegal(node, fqdn);
      ghost var all := SweepRun(node, fqdn, lists, records, statuses);
      assert log + all.0 == all.0;
      finished := false;
      while true
        invariant Legal(log, node, fqdn)
        invariant PassIds(log) == None || !AllDead(Pass(log), fqdn)
        invariant SweepRun(node, fqdn, old(lists), old(records), old(statuses)) == After(log, SweepRun(node, fqdn, lists, records, statuses))
        decreases |lists|
      {
        ghost var before := log;
        var ids := List(node, fqdn);
        if ids == None {
          assert log + [] == log;
          return false;
        }
        RunStep(before, ids.value, node, fqdn, lists, records, statuses);
        var remain, alive := Sweep(ids.value, node, fqdn);
        if !alive { return false; }
        if !remain { return true; }
      }
    }
  }

  lemma {:induction false} EmptyLegal(node: string, fqdn: string)
    ensures Legal([], node, fqdn) && PassIds([]) == None
  {
  }

  lemma {:induction false} NeverRemains(id: string, records: seq<Option<Record>>, statuses: seq<string>)
    ensures !ClearRun(id, records, statuses).remains && ClearRun(id, records, statuses).records == records
  {
    if statuses != [] { NeverRemains(id, records, statuses[1..]); }
  }

  /** One broker is asked to leave maintenance mode until it answers 200, 400 or 404, and not once more; after any other
      answer, such as 503, it is asked again. */
  lemma {:induction false} ClearStops(id: string, records: seq<Option<Record>>, statuses: seq<string>)
    ensures var p := ClearRun(id, records, statuses);
            && |p.events| <= |statuses| && p.statuses == statuses[|p.events|..]
            && (forall i :: 0 <= i < |p.events| ==> p.events[i] == Deleted(id, statuses[i]))
            && (forall i :: 0 <= i < |p.events| - 1 ==> statuses[i] != "200" && statuses[i] != "400" && statuses[i] != "404")
            && (p.alive ==> p.events != [] && var last := statuses[|p.events| - 1]; last == "200" || last == "400" || last == "404")
            && (!p.alive ==> |p.events| == |statuses| && (statuses != [] ==>
                  var last := statuses[|statuses| - 1]; last != "200" && last != "400" && last != "404"))
  {
    if statuses != [] && !Done(statuses[0]) {
      var rest := statuses[1..];
      ClearStops(id, records, rest);
      var p, q := ClearRun(id, records, statuses), ClearRun(id, records, rest);
      assert p == Before([Deleted(id, statuses[0])], q);
      assert rest[|q.events|..] == statuses[|p.events|..];
      hide ClearRun;
      assert forall i :: 0 < i < |statuses| ==> statuses[i] == rest[i - 1];
      assert forall i :: 0 < i < |p.events| ==> p.events[i] == q.events[i - 1];
    }
  }

  /** Deleting again and again is as legal as the first time. */
  lemma {:induction false} ClearLegal(log: seq<Event>, id: string, records: seq<Option<Record>>, statuses: seq<string>, node: string, fqdn: string)
    requires Legal(log, node, fqdn) && id != node && KnownGhost(Pass(log), id, fqdn)
    ensures var p := ClearRun(id, records, statuses);
            && Legal(log + p.events, node, fqdn) && PassIds(log + p.events) == PassIds(log)
            && Pass(log + p.events) == Pass(log) + p.events
            && (forall e :: e in p.events ==> e.Deleted?)
            && (p.alive ==> Cleared(p.events, id))
    decreases statuses
  {
    hide Pass, PassIds, Legal;
    if statuses == [] {
      assert log + [] == log && Pass(log) + [] == Pass(log);
    } else {
      var e, rest := Deleted(id, statuses[0]), ClearRun(id, records, statuses[1..]);
      LegalStep(log, e, node, fqdn);
      if Done(statuses[0]) {
        assert e in [e];
      } else {
        KeepsGhost(Pass(log), Pass(log) + [e], id, fqdn);
        ClearLegal(log + [e], id, records, statuses[1..], node, fqdn);
        assert log + [e] + rest.events == log + ([e] + rest.events);
        assert Pass(log) + [e] + rest.events == Pass(log) + ([e] + rest.events);
      }
    }
  }

  lemma {:induction false} KeepsGhost(pass: seq<Event>, longer: seq<Event>, id: string, fqdn: string)
    requires pass <= longer && KnownGhost(pass, id, fqdn)
    ensures KnownGhost(longer, id, fqdn)
  {
    var r :| Fetched(id, Some(r)) in pass && Drainer(r, fqdn) && r.reportedDead;
    assert Fetched(id, Some(r)) in longer;
  }

  lemma {:induction false} StaysLive(pass: seq<Event>, longer: seq<Event>, fqdn: string)
    requires pass <= longer && !AllDead(pass, fqdn)
    ensures !AllDead(longer, fqdn)
  {
    var id, r :| Fetched(id, Some(r)) in pass && Drainer(r, fqdn) && !r.reportedDead;
    assert Fetched(id, Some(r)) in longer;
  }

  /** What a longer pass reads besides, when all of that is cleared. */
  lemma {:induction false} KeepsCleared(pass: seq<Event>, longer: seq<Event>, fqdn: string)
    requires pass <= longer
    requires forall id, r :: Fetched(id, Some(r)) in longer && Fetched(id, Some(r)) !in pass && Drainer(r, fqdn) ==> Cleared(longer, id)
    ensures AllCleared(pass, fqdn) ==> AllCleared(longer, fqdn)
  {
    if AllCleared(pass, fqdn) {
      forall id, r | Fetched(id, Some(r)) in longer && Drainer(r, fqdn) ensures Cleared(longer, id) {
        if Fetched(id, Some(r)) in pass {
          assert Cleared(pass, id);
        }
      }
    }
  }

  /// ## Brokers that cannot be read

  lemma {:induction false} DeletedKnown(log: seq<Event>, node: string, fqdn: string, id: string, status: string)
    requires Legal(log, node, fqdn) && Deleted(id, status) in Pass(log)
    ensures KnownGhost(Pass(log), id, fqdn) && id != node
  {
    var front, last := log[..|log| - 1], log[|log| - 1];
    assert log == front + [last];
    if last == Deleted(id, status) {
      assert KnownGhost(Pass(front), id, fqdn) by { assert log[|log| - 1].Deleted? && log[..|log| - 1] == front; }
    } else {
      PrefixLegal(front, last, node, fqdn);
      DeletedKnown(front, node, fqdn, id, status);
    }
    KeepsGhost(Pass(front), Pass(log), id, fqdn);
  }

  lemma {:induction false} PrefixLegal(log: seq<Event>, e: Event, node: string, fqdn: string)
    requires Legal(log + [e], node, fqdn)
    ensures Legal(log, node, fqdn)
  {
    var all := log + [e];
    forall i | 0 <= i < |log| && log[i].Deleted? ensures log[i].id != node && KnownGhost(Pass(log[..i]), log[i].id, fqdn) {
      assert all[i] == log[i] && all[..i] == log[..i];
    }
    forall i | 0 <= i < |log| && log[i].Listed? ensures PassIds(log[..i]) == None || !AllDead(Pass(log[..i]), fqdn) {
      assert all[i] == log[i] && all[..i] == log[..i];
    }
  }

  /** What the last pass read is how the brokers were. */
  ghost predicate Truthful(pass: seq<Event>, truth: map<string, Record>) {
    forall id, r :: Fetched(id, Some(r)) in pass ==> id in truth && truth[id] == r
  }

  ghost predicate Read(pass: seq<Event>, id: string) {
    exists r :: Fetched(id, Some(r)) in pass
  }

  /** The drainers at this pod's address that the last pass went through. */
  predicate Ghost(log: seq<Event>, node: string, fqdn: string, truth: map<string, Record>, id: string) {
    && PassIds(log).Some? && id in PassIds(log).value && id != node
    && id in truth && truth[id].address == fqdn && truth[id].draining
  }

  /** After a sweep: a ghost that the last pass listed is cleared exactly when its record could be read. */
  lemma {:induction false} ClearedIff(log: seq<Event>, node: string, fqdn: string, truth: map<string, Record>, id: string)
    requires Legal(log, node, fqdn) && Swept(log, node, fqdn) && Truthful(Pass(log), truth)
    requires Ghost(log, node, fqdn, truth, id)
    ensures Cleared(Pass(log), id) <==> Read(Pass(log), id)
  {
    if Cleared(Pass(log), id) {
      var status :| status in {"200", "400", "404"} && Deleted(id, status) in Pass(log);
      DeletedKnown(log, node, fqdn, id, status);
    }
    if Read(Pass(log), id) {
      var r :| Fetched(id, Some(r)) in Pass(log);
      assert truth[id] == r;
    }
  }

  /** No ghost is left exactly when no fetch of one failed for good. */
  lemma {:induction false} AllClearedIff(log: seq<Event>, node: string, fqdn: string, truth: map<string, Record>)
    requires Legal(log, node, fqdn) && Swept(log, node, fqdn) && Truthful(Pass(log), truth)
    ensures (forall id :: Ghost(log, node, fqdn, truth, id) ==> Cleared(Pass(log), id))
            <==> (forall id :: Ghost(log, node, fqdn, truth, id) ==> Read(Pass(log), id))
  {
    forall id | Ghost(log, node, fqdn, truth, id) ensures Cleared(Pass(log), id) <==> Read(Pass(log), id) {
      ClearedIff(log, node, fqdn, truth, id);
    }
  }

  /** A sweep that ends although a ghost was listed: its one fetch failed. */
  lemma {:induction false} FailedFetchEnds(fqdn: string)
    ensures var run := SweepRun("0", fqdn, [["0", "1"]], [None], []);
            var truth := map["1" := Record(fqdn, true, true)];
            run.1 && Truthful(Pass(run.0), truth) && Ghost(run.0, "0", fqdn, truth, "1") && !Cleared(Pass(run.0), "1")
  {
    var ids := ["0", "1"];
    assert ids[1..] == ["1"] && ["1"][1..] == [] && [Option<Record>.None][1..] == [];
    var one := [Fetched("1", None)];
    assert PassRun(["1"], "0", fqdn, [None], []).events == one + [];
    assert one + [] == one && [] + one == one;
    var log := [Listed(ids)] + one;
    assert SweepRun("0", fqdn, [ids], [None], []) == (log, true);
    assert log[..1] == [Listed(ids)] && log[1] == one[0] && [Listed(ids)][..0] == [];
    assert Pass(log) == [] + one;
  }
}
