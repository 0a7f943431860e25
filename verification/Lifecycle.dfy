/** The postStart and preStop hooks of a broker, interleaved with the broker and with their timeouts. */
module Lifecycle {
  import opened Wrappers

  /// ## The parties

  /** What the broker is doing about maintenance mode. */
  datatype Phase = Off | Pending | Draining | Drained

  /** postStart.sh itself: it starts the detached clear, records its process group and returns.
      `recorded` is false when the hook's timeout stopped it before it wrote the pid file. */
  datatype Hook = Starting | Spawned | Returned(recorded: bool)

  /** The detached clear.  It is `Forked` until `setsid` gives it a process group of its own. */
  datatype Clear =
    | Absent
    | Forked
    | ReadingId
    | Clearing                 // about to send a DELETE for this broker
    | Awaiting                 // that DELETE is sent
    | Sweeping                 // looking for ghosts of this pod
    | Finishing                // the sweep is over, the pid file still there
    | Gone

  /** The two fields that preStop cuts out of an answer; both empty when the request failed. */
  datatype Report = Report(finished: string, draining: string)

  datatype Reason = NoId | NotMember | DrainSeen | TimedOut

  datatype Stop =
    | Idle
    | Killing
    | Identifying(attempts: nat)
    | Putting
    | Polling(saw: bool)
    | Exited(why: Reason)

  /** `inflight` counts the DELETEs for this broker that were sent and not yet handled: killing their sender
      does not call them back. */
  datatype State = State(hook: Hook, pidFile: bool, clear: Clear, stop: Stop, phase: Phase, inflight: nat)

  datatype Target = Own | Ghost

  datatype Event =
    | HookSpawn
    | HookRecord
    | HookTimeout
    | ClearDetach
    | ClearIdentify
    | ClearDelete(target: Target)
    | ClearStatus(status: string)
    | ClearSweepDone
    | ClearRemovePid
    | ClearTimeout
    | StopStart
    | StopKill
    | StopIdentify(answered: bool)
    | StopPut(taken: bool, status: string)
    | StopGet(report: Report)
    | StopTimeout
    | BrokerStarts
    | BrokerFinishes
    | BrokerTakesDelete
    | BrokerDropsDelete
    | BrokerTakesLatePut

  const START := State(Starting, false, Absent, Idle, Off, 0)

  const ATTEMPTS: nat := 20

  predicate Running(c: Clear) {
    c.ReadingId? || c.Clearing? || c.Awaiting? || c.Sweeping? || c.Finishing?
  }

  /** What a broker in a given phase can answer to a poll.  A broker that was only just asked to drain
      reports draining=false, like one that never was. */
  predicate Shows(phase: Phase, r: Report) {
    match phase
    case Draining => r.finished != "true" && r.draining != "false"
    case Drained => true
    case _ => r.finished != "true" && r.draining != "true"
  }

  predicate Enabled(s: State, e: Event) {
    match e
    case HookSpawn => s.hook.Starting?
    case HookRecord => s.hook.Spawned?
    case HookTimeout => s.hook.Starting? || s.hook.Spawned?
    case ClearDetach => s.clear.Forked?
    case ClearIdentify => s.clear.ReadingId?
    case ClearDelete(t) => if t.Own? then s.clear.Clearing? else s.clear.Sweeping?
    case ClearStatus(_) => s.clear.Awaiting?
    case ClearSweepDone => s.clear.Sweeping?
    case ClearRemovePid => s.clear.Finishing?
    case ClearTimeout => Running(s.clear)
    case StopStart => s.stop.Idle? && s.hook.Returned?
    case StopKill => s.stop.Killing?
    case StopIdentify(_) => s.stop.Identifying?
    case StopPut(taken, status) => s.stop.Putting? && (status == "200" ==> taken) && (status == "404" || status == "400" ==> !taken)
    case StopGet(r) => s.stop.Polling? && Shows(s.phase, r)
    case StopTimeout => !s.stop.Idle? && !s.stop.Exited?
    case BrokerStarts => s.phase.Pending?
    case BrokerFinishes => s.phase.Pending? || s.phase.Draining?
    case BrokerTakesDelete => s.inflight > 0
    case BrokerDropsDelete => s.inflight > 0
    case BrokerTakesLatePut => s.stop.Putting? || s.stop.Polling? || s.stop.Exited?
  }

  /** A PUT asks for a drain; a broker already asked carries on. */
  function Asked(phase: Phase): Phase {
    if phase.Off? then Pending else phase
  }

  /** The loop condition of the drain poll, after an answer. */
  function Polled(saw: bool, r: Report): Stop {
    var saw' := saw || r.draining == "true";
    if r.finished == "true" || (saw' && r.draining == "false") then Exited(DrainSeen) else Polling(saw')
  }

  function Apply(s: State, e: Event): State
    requires Enabled(s, e)
  {
    match e
    case HookSpawn => s.(hook := Spawned, clear := Forked)
    case HookRecord => s.(hook := Returned(true), pidFile := true)
    case HookTimeout => s.(hook := Returned(false), clear := if s.clear.Forked? then Gone else s.clear)
    case ClearDetach => s.(clear := ReadingId)
    case ClearIdentify => s.(clear := Clearing)
    case ClearDelete(t) => if t.Own? then s.(clear := Awaiting, inflight := s.inflight + 1) else s
    case ClearStatus(status) => s.(clear := if status == "200" || status == "400" then Sweeping else Clearing)
    case ClearSweepDone => s.(clear := Finishing)
    case ClearRemovePid => s.(clear := Gone, pidFile := false)
    case ClearTimeout => s.(clear := Gone)
    case StopStart => s.(stop := Killing)
    case StopKill => s.(stop := Identifying(ATTEMPTS), clear := if s.pidFile && Running(s.clear) then Gone else s.clear)
    case StopIdentify(answered) =>
      if answered then s.(stop := Putting)
      else if s.stop.attempts <= 1 then s.(stop := Exited(NoId))
      else s.(stop := Identifying(s.stop.attempts - 1))
    case StopPut(taken, status) =>
      s.(phase := if taken then Asked(s.phase) else s.phase,
         stop := if status == "200" then Polling(false) else if status == "404" then Exited(NotMember) else Putting)
    case StopGet(r) => s.(stop := Polled(s.stop.saw, r))
    case StopTimeout => s.(stop := Exited(TimedOut))
    case BrokerStarts => s.(phase := Draining)
    case BrokerFinishes => s.(phase := Drained)
    case BrokerTakesDelete => s.(phase := Off, inflight := s.inflight - 1)
    case BrokerDropsDelete => s.(inflight := s.inflight - 1)
    case BrokerTakesLatePut => s.(phase := Asked(s.phase))
  }

  /** The state after a run, if every one of its steps is enabled in turn. */
  function After(s: State, es: seq<Event>): Option<State>
    decreases |es|
  {
    if es == [] then Some(s)
    else if Enabled(s, es[0]) then After(Apply(s, es[0]), es[1..])
    else None
  }

  lemma {:induction false} AfterJoin(s: State, a: seq<Event>, b: seq<Event>)
    requires After(s, a).Some?
    ensures After(s, a + b) == After(After(s, a).value, b)
    decreases |a|
  {
    if a == [] {
      assert a + b == b;
    } else {
      AfterJoin(Apply(s, a[0]), a[1..], b);
      assert (a + b)[0] == a[0] && (a + b)[1..] == a[1..] + b;
    }
  }

  /** Every run is a prefix followed by one step. */
  lemma {:induction false} AfterSnoc(s: State, es: seq<Event>, e: Event)
    requires After(s, es + [e]).Some?
    ensures After(s, es).Some? && Enabled(After(s, es).value, e)
    ensures After(s, es + [e]) == Some(Apply(After(s, es).value, e))
  {
    PrefixRuns(s, es, [e]);
    AfterJoin(s, es, [e]);
    assert [e][1..] == [];
  }

  lemma {:induction false} PrefixRuns(s: State, a: seq<Event>, b: seq<Event>)
    requires After(s, a + b).Some?
    ensures After(s, a).Some?
    decreases |a|
  {
    if a != [] {
      assert (a + b)[0] == a[0] && (a + b)[1..] == a[1..] + b;
      PrefixRuns(Apply(s, a[0]), a[1..], b);
    }
  }

  /// ## The kill

  /** The clear can still send a DELETE. */
  predicate CanDelete(c: Clear) {
    c.Forked? || c.ReadingId? || c.Clearing? || c.Awaiting? || c.Sweeping?
  }

  /** What a caller can check before preStop's kill: it reaches whatever could still send a DELETE. */
  predicate KillReaches(s: State) {
    !CanDelete(s.clear) || (s.pidFile && !s.clear.Forked?)
  }

  predicate Deletes(es: seq<Event>) {
    exists i :: 0 <= i < |es| && es[i].ClearDelete?
  }

  /** Some run that goes on from `s` with preStop's kill sends a DELETE afterwards. */
  ghost predicate DeleteCanFollowKill(s: State) {
    exists es :: After(s, [StopKill] + es).Some? && Deletes(es)
  }

  /** Once nothing is left that could send a DELETE, and the hook has returned, none is sent. */
  lemma {:induction false} StaysQuiet(s: State, es: seq<Event>)
    requires s.hook.Returned? && !CanDelete(s.clear) && After(s, es).Some?
    ensures !Deletes(es)
    decreases |es|
  {
    if es != [] {
      StaysQuiet(Apply(s, es[0]), es[1..]);
      forall i | 0 <= i < |es| ensures !es[i].ClearDelete? {
        if i > 0 { assert es[i] == es[1..][i - 1]; }
      }
    }
  }

  /** A run from the clear's state to its next DELETE. */
  function ToDelete(c: Clear): seq<Event>
    requires CanDelete(c)
  {
    match c
    case Forked => [ClearDetach, ClearIdentify, ClearDelete(Own)]
    case ReadingId => [ClearIdentify, ClearDelete(Own)]
    case Clearing => [ClearDelete(Own)]
    case Awaiting => [ClearStatus(""), ClearDelete(Own)]
    case _ => [ClearDelete(Ghost)]
  }

  lemma {:induction false} ToDeleteRuns(s: State)
    requires CanDelete(s.clear)
    ensures After(s, ToDelete(s.clear)).Some? && Deletes(ToDelete(s.clear))
  {
    var es := ToDelete(s.clear);
    assert es[|es| - 1].ClearDelete?;
    assert [ClearDelete(Own)][1..] == [] && [ClearDelete(Ghost)][1..] == [];
    assert [ClearStatus(""), ClearDelete(Own)][1..] == [ClearDelete(Own)];
    assert [ClearIdentify, ClearDelete(Own)][1..] == [ClearDelete(Own)];
    assert [ClearDetach, ClearIdentify, ClearDelete(Own)][1..] == [ClearIdentify, ClearDelete(Own)];
    assert [ClearDelete(Own)][0] == ClearDelete(Own);
    if s.clear.Awaiting? {
      assert After(Apply(s, ClearStatus("")), [ClearDelete(Own)]).Some?;
    } else if s.clear.ReadingId? {
      assert After(Apply(s, ClearIdentify), [ClearDelete(Own)]).Some?;
    } else if s.clear.Forked? {
      var s1 := Apply(s, ClearDetach);
      assert After(Apply(s1, ClearIdentify), [ClearDelete(Own)]).Some?;
      assert After(s1, [ClearIdentify, ClearDelete(Own)]).Some?;
    }
  }

  /** A DELETE can follow the kill exactly when the kill misses a clear that can still send one. */
  lemma {:induction false} KillEndsDeletes(s: State)
    requires s.stop.Killing? && s.hook.Returned?
    ensures DeleteCanFollowKill(s) <==> !KillReaches(s)
  {
    var s1 := Apply(s, StopKill);
    forall es | After(s, [StopKill] + es).Some? && Deletes(es) ensures !KillReaches(s) {
      assert ([StopKill] + es)[1..] == es;
      if KillReaches(s) { StaysQuiet(s1, es); }
    }
    if !KillReaches(s) {
      ToDeleteRuns(s1);
      var es := ToDelete(s1.clear);
      assert ([StopKill] + es)[1..] == es;
      assert After(s, [StopKill] + es).Some? && Deletes(es);
    }
  }

  /// ## Runs from the start

  /** What every reachable state has in common. */
  predicate Consistent(s: State) {
    && (s.hook.Starting? ==> s.clear.Absent?)
    && (s.clear.Absent? ==> s.hook != Returned(true) && !s.hook.Spawned?)
    && (!s.stop.Idle? ==> s.hook.Returned?)
    && (s.hook == Returned(true) && (s.clear.Forked? || Running(s.clear)) && s.stop in {Idle, Killing} ==> s.pidFile)
    && (s.hook == Returned(false) ==> !s.clear.Forked?)
  }

  lemma {:induction false} StaysConsistent(s: State, es: seq<Event>)
    requires Consistent(s) && After(s, es).Some?
    ensures Consistent(After(s, es).value)
    decreases |es|
  {
    if es != [] {
      StaysConsistent(Apply(s, es[0]), es[1..]);
    }
  }

  /** In a run where postStart recorded its clear and the clear is in its own session by then, no DELETE follows
      preStop's kill, whatever the timeouts, the broker and the clear do. */
  lemma {:induction false} NoDeleteAfterKill(before: seq<Event>, after: seq<Event>)
    requires After(START, before + [StopKill] + after).Some?
    requires var s := After(START, before); s.Some? ==> s.value.hook == Returned(true) && !s.value.clear.Forked?
    ensures !Deletes(after)
  {
    assert before + [StopKill] + after == before + ([StopKill] + after);
    PrefixRuns(START, before, [StopKill] + after);
    AfterJoin(START, before, [StopKill] + after);
    var s := After(START, before).value;
    StaysConsistent(START, before);
    assert ([StopKill] + after)[1..] == after;
    KillEndsDeletes(s);
  }

  /** When postStart is stopped between starting the clear and recording it, the clear undoes the drain. */
  lemma {:induction false} UnrecordedClearDeletes()
    ensures exists before, after :: After(START, before + [StopKill] + after).Some? && Deletes(after)
  {
    var before := [HookSpawn, ClearDetach, HookTimeout, StopStart];
    var after := [ClearIdentify, ClearDelete(Own)];
    var s := State(Returned(false), false, ReadingId, Killing, Off, 0);
    assert After(START, before) == Some(s) by {
      assert before[1..] == [ClearDetach, HookTimeout, StopStart];
      assert before[1..][1..] == [HookTimeout, StopStart];
      assert before[1..][1..][1..] == [StopStart];
      assert After(Apply(Apply(Apply(START, HookSpawn), ClearDetach), HookTimeout), [StopStart]) == Some(s);
      assert After(Apply(Apply(START, HookSpawn), ClearDetach), before[1..][1..]) == Some(s);
      assert After(Apply(START, HookSpawn), before[1..]) == Some(s);
    }
    ToDeleteRuns(Apply(s, StopKill));
    assert ([StopKill] + after)[1..] == after;
    AfterJoin(START, before, [StopKill] + after);
    assert before + [StopKill] + after == before + ([StopKill] + after);
  }

  /// ## The drain poll

  /** The answers that preStop has polled since it was told 200, in order. */
  function Answers(es: seq<Event>): seq<Report> {
    if es == [] then []
    else
      var e := es[|es| - 1];
      if e.StopGet? then Answers(es[..|es| - 1]) + [e.report]
      else Answers(es[..|es| - 1])
  }

  /** One answer said finished, or one said draining=true and a later one draining=false. */
  ghost predicate DrainShown(rs: seq<Report>) {
    || (exists i :: 0 <= i < |rs| && rs[i].finished == "true")
    || (exists i, j :: 0 <= i < j < |rs| && rs[i].draining == "true" && rs[j].draining == "false")
  }

  ghost predicate SeenDraining(rs: seq<Report>) {
    exists i :: 0 <= i < |rs| && rs[i].draining == "true"
  }

  lemma {:induction false} ShownByLast(rs: seq<Report>, r: Report)
    requires !DrainShown(rs)
    ensures SeenDraining(rs + [r]) <==> SeenDraining(rs) || r.draining == "true"
    ensures DrainShown(rs + [r]) <==> r.finished == "true" || (SeenDraining(rs) && r.draining == "false")
  {
    var all := rs + [r];
    assert all[|rs|] == r && forall i :: 0 <= i < |rs| ==> all[i] == rs[i];
    if SeenDraining(rs) {
      var i :| 0 <= i < |rs| && rs[i].draining == "true";
      assert all[i].draining == "true";
    }
  }

  /** preStop leaves its poll after exactly the first answer that completes the evidence of a drain. */
  lemma {:induction false} PollEndsOnEvidence(es: seq<Event>)
    requires After(START, es).Some?
    ensures var stop := After(START, es).value.stop;
            match stop
            case Polling(saw) => !DrainShown(Answers(es)) && (saw <==> SeenDraining(Answers(es)))
            case Exited(why) => (why.DrainSeen? <==> DrainShown(Answers(es))) && (why.DrainSeen? ==> ShownAtLast(Answers(es)))
            case _ => Answers(es) == []
  {
    if es != [] {
      var init, e := es[..|es| - 1], es[|es| - 1];
      assert es == init + [e];
      AfterSnoc(START, init, e);
      PollEndsOnEvidence(init);
      if e.StopGet? { ShownByLast(Answers(init), e.report); }
    }
  }

  ghost predicate ShownAtLast(rs: seq<Report>) {
    rs != [] && !DrainShown(rs[..|rs| - 1])
  }

  /// ## The drain is real

  /** Nothing is left that could take the broker out of maintenance mode after preStop's kill. */
  predicate Undisturbed(s: State) {
    s.inflight == 0 && !UndoesDrain(s.clear)
  }

  predicate UndoesDrain(c: Clear) {
    c.Forked? || c.ReadingId? || c.Clearing? || c.Awaiting?
  }

  predicate PollSound(s: State) {
    match s.stop
    case Polling(saw) => !s.phase.Off? && (saw ==> !s.phase.Pending?)
    case Exited(why) => why.DrainSeen? ==> s.phase.Drained?
    case _ => true
  }

  lemma {:induction false} StaysSound(s: State, es: seq<Event>)
    requires s.hook.Returned? && Undisturbed(s) && PollSound(s) && After(s, es).Some?
    ensures PollSound(After(s, es).value)
    decreases |es|
  {
    if es != [] {
      StaysSound(Apply(s, es[0]), es[1..]);
    }
  }

  /** Some run that goes on from `s` leaves the poll on its evidence while the broker is not drained. */
  ghost predicate CanMislead(s: State) {
    exists es :: After(s, es).Some? && After(s, es).value.stop == Exited(DrainSeen) && !After(s, es).value.phase.Drained?
  }

  /** From the kill on, preStop's evidence means a drained broker exactly when the kill left no sender of a DELETE
      for this broker and no such DELETE on its way. */
  lemma {:induction false} DrainRealIff(s: State)
    requires s.stop == Identifying(ATTEMPTS) && s.hook.Returned?
    ensures !CanMislead(s) <==> Undisturbed(s)
  {
    if Undisturbed(s) {
      forall es | After(s, es).Some? && After(s, es).value.stop == Exited(DrainSeen)
        ensures After(s, es).value.phase.Drained?
      {
        StaysSound(s, es);
      }
    } else {
      ClearMisleads(s);
    }
  }

  lemma {:induction false} Misleads(s: State, e: Event)
    requires Enabled(s, e) && CanMislead(Apply(s, e))
    ensures CanMislead(s)
  {
    var s1 := Apply(s, e);
    var es :| After(s1, es).Some? && After(s1, es).value.stop == Exited(DrainSeen) && !After(s1, es).value.phase.Drained?;
    assert ([e] + es)[1..] == es;
    assert After(s, [e] + es) == After(s1, es);
  }

  /** However far the clear had got, its DELETE can arrive after the drain was seen to begin. */
  lemma {:induction false} ClearMisleads(s: State)
    requires s.stop == Identifying(ATTEMPTS) && !Undisturbed(s)
    ensures CanMislead(s)
    decreases if s.inflight > 0 then 0 else match s.clear case Forked => 4 case ReadingId => 3 case Awaiting => 2 case _ => 1
  {
    if s.inflight > 0 {
      LateDeleteMisleads(s);
    } else {
      var e := match s.clear
        case Forked => ClearDetach
        case ReadingId => ClearIdentify
        case Clearing => ClearDelete(Own)
        case _ => ClearStatus("");
      ClearMisleads(Apply(s, e));
      Misleads(s, e);
    }
  }

  lemma {:induction false} LateDeleteMisleads(s: State)
    requires s.stop == Identifying(ATTEMPTS) && s.inflight > 0
    ensures CanMislead(s)
  {
    var s1 := Apply(s, StopIdentify(true));
    var s2 := Apply(s1, StopPut(true, "200"));
    var s3 := if s2.phase.Pending? then Apply(s2, BrokerStarts) else s2;
    var s4 := Apply(s3, StopGet(Report("", "true")));
    var s5 := Apply(s4, BrokerTakesDelete);
    var s6 := Apply(s5, StopGet(Report("", "false")));
    assert After(s6, []) == Some(s6) && s6.stop == Exited(DrainSeen);
    Misleads(s5, StopGet(Report("", "false")));
    Misleads(s4, BrokerTakesDelete);
    Misleads(s3, StopGet(Report("", "true")));
    if s2.phase.Pending? { Misleads(s2, BrokerStarts); }
    Misleads(s1, StopPut(true, "200"));
    Misleads(s, StopIdentify(true));
  }

  /** The guarantee of the two hooks together: with the clear recorded, in its own session and no DELETE of it
      under way when preStop kills it, leaving the poll on its evidence leaves a drained broker. */
  lemma {:induction false} PreStopDrains(before: seq<Event>, after: seq<Event>)
    requires After(START, before + [StopKill] + after).Some?
    requires var s := After(START, before);
             s.Some? ==> s.value.hook == Returned(true) && !s.value.clear.Forked? && s.value.inflight == 0
    ensures var end := After(START, before + [StopKill] + after).value;
            end.stop == Exited(DrainSeen) ==> end.phase.Drained? && DrainShown(Answers(before + [StopKill] + after))
  {
    var es := before + [StopKill] + after;
    assert es == before + ([StopKill] + after);
    PrefixRuns(START, before, [StopKill] + after);
    AfterJoin(START, before, [StopKill] + after);
    var s := After(START, before).value;
    StaysConsistent(START, before);
    assert ([StopKill] + after)[1..] == after;
    DrainRealIff(Apply(s, StopKill));
    PollEndsOnEvidence(es);
  }

  /// ## Giving up

  function FailedReads(es: seq<Event>): nat {
    if es == [] then 0
    else FailedReads(es[..|es| - 1]) + if es[|es| - 1] == StopIdentify(false) then 1 else 0
  }

  predicate AsksToDrain(es: seq<Event>) {
    exists i :: 0 <= i < |es| && es[i].StopPut?
  }

  /** A broker whose node id cannot be read in twenty attempts is left alone, and only such a one is given up. */
  lemma {:induction false} GivesUpAfterTwenty(es: seq<Event>)
    requires After(START, es).Some?
    ensures FailedReads(es) <= 20
    ensures var stop := After(START, es).value.stop;
            && (stop.Identifying? ==> FailedReads(es) + stop.attempts == 20 && stop.attempts > 0)
            && (stop.Idle? || stop.Killing? ==> FailedReads(es) == 0)
            && (stop == Exited(NoId) <==> FailedReads(es) == 20)
            && (stop.Idle? || stop.Killing? || stop.Identifying? || stop == Exited(NoId) ==> !AsksToDrain(es))
  {
    if es != [] {
      var init, e := es[..|es| - 1], es[|es| - 1];
      assert es == init + [e];
      AfterSnoc(START, init, e);
      GivesUpAfterTwenty(init);
      assert forall i :: 0 <= i < |init| ==> es[i] == init[i];
    }
  }

  /// ## What ends the loops that ask until they are answered

  /** The answers to preStop's PUTs, in order. */
  function Puts(es: seq<Event>): seq<string> {
    if es == [] then []
    else
      var e := es[|es| - 1];
      if e.StopPut? then Puts(es[..|es| - 1]) + [e.status]
      else Puts(es[..|es| - 1])
  }

  /** The answers to the DELETEs that the clear sent for its own broker, in order. */
  function OwnDeletes(es: seq<Event>): seq<string> {
    if es == [] then []
    else
      var e := es[|es| - 1];
      if e.ClearStatus? then OwnDeletes(es[..|es| - 1]) + [e.status]
      else OwnDeletes(es[..|es| - 1])
  }

  /** preStop asks for the drain until it is told 200 or 404, and nothing but these two and its timeout ends the
      asking: told 200 it polls, told 404 it leaves, told anything else (400 while another broker has the slot) it
      asks again. */
  lemma {:induction false} PutsUntilAnswered(es: seq<Event>)
    requires After(START, es).Some?
    ensures var stop, puts := After(START, es).value.stop, Puts(es);
            && (forall i :: 0 <= i < |puts| - 1 ==> puts[i] != "200" && puts[i] != "404")
            && (stop == Exited(NotMember) <==> "404" in puts)
            && (stop.Polling? || stop == Exited(DrainSeen) <==> "200" in puts && StopTimeout !in es)
            && (stop == Putting <==> StopIdentify(true) in es && "200" !in puts && "404" !in puts && StopTimeout !in es)
            && (stop == Exited(TimedOut) <==> StopTimeout in es)
  {
    if es != [] {
      var init, e := es[..|es| - 1], es[|es| - 1];
      assert es == init + [e];
      AfterSnoc(START, init, e);
      PutsUntilAnswered(init);
      AsksOnlyWithId(init);
      assert Puts(es) == if e.StopPut? then Puts(init) + [e.status] else Puts(init);
    }
  }

  /** Without having read the id of its broker, preStop asks for nothing. */
  lemma {:induction false} AsksOnlyWithId(es: seq<Event>)
    requires After(START, es).Some?
    ensures var stop := After(START, es).value.stop;
            stop.Idle? || stop.Killing? || stop.Identifying? || stop == Exited(NoId) ==>
              Puts(es) == [] && StopIdentify(true) !in es && StopTimeout !in es
  {
    if es != [] {
      var init, e := es[..|es| - 1], es[|es| - 1];
      assert es == init + [e];
      AfterSnoc(START, init, e);
      AsksOnlyWithId(init);
    }
  }

  /** The clear asks for the end of maintenance mode until it is told 200 or 400, and looks for ghosts only then. */
  lemma {:induction false} ClearsUntilAnswered(es: seq<Event>)
    requires After(START, es).Some?
    ensures var clear, told := After(START, es).value.clear, OwnDeletes(es);
            && (forall i :: 0 <= i < |told| - 1 ==> told[i] != "200" && told[i] != "400")
            && (clear.Sweeping? || clear.Finishing? ==> "200" in told || "400" in told)
            && (clear.Clearing? || clear.Awaiting? ==> "200" !in told && "400" !in told)
            && (ClearDelete(Ghost) in es ==> "200" in told || "400" in told)
            && (clear.Absent? || clear.Forked? || clear.ReadingId? ==> told == [])
  {
    if es != [] {
      var init, e := es[..|es| - 1], es[|es| - 1];
      assert es == init + [e];
      AfterSnoc(START, init, e);
      ClearsUntilAnswered(init);
      StaysConsistent(START, init);
      assert OwnDeletes(es) == if e.ClearStatus? then OwnDeletes(init) + [e.status] else OwnDeletes(init);
    }
  }

  /** Any answer can come, or none (an empty one), however often the question was asked. */
  lemma {:induction false} AnyAnswer(es: seq<Event>, status: string)
    requires After(START, es).Some?
    ensures After(START, es).value.stop.Putting? ==> exists taken :: After(START, es + [StopPut(taken, status)]).Some?
    ensures After(START, es).value.clear.Awaiting? ==> After(START, es + [ClearStatus(status)]).Some?
  {
    var s := After(START, es).value;
    var put, told := StopPut(status == "200", status), ClearStatus(status);
    assert [put][1..] == [] && [told][1..] == [];
    if s.stop.Putting? { AfterJoin(START, es, [put]); }
    if s.clear.Awaiting? { AfterJoin(START, es, [told]); }
  }
}
