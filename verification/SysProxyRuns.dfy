/** What the system proxy switch promises over whole runs, however often it crashes. */
module SysProxyRuns {
  import opened Options
  import opened Seqs
  import opened SysProxy
  import opened SysProxyMachine
  import opened SysProxySafety

  ghost predicate Trace(s: State, acts: seq<Action>)
    decreases |acts|, 0
  {
    acts == [] || (Trace(s, Front(acts)) && Enabled(After(s, Front(acts)), Last(acts)))
  }

  ghost function After(s: State, acts: seq<Action>): State
    requires Trace(s, acts)
    decreases |acts|, 1
  {
    if acts == [] then s else Next(After(s, Front(acts)), Last(acts))
  }

  /** pano has never been switched on. */
  function Fresh(orig: Live): State {
    State(orig, None, Idle)
  }

  lemma {:induction false} TraceKeeps(orig: Live, acts: seq<Action>)
    requires Trace(Fresh(orig), acts)
    ensures Inv(After(Fresh(orig), acts), orig)
    decreases |acts|
  {
    if acts != [] {
      TraceKeeps(orig, Front(acts));
      StepKeeps(After(Fresh(orig), Front(acts)), orig, Last(acts));
    }
  }

  /** Settings as they were before pano, for a configuration that can be brought back. */
  predicate Original(c: Config, d: Config) {
    Restorable(d) ==> Same(c, d)
  }

  /** Nothing is lost: what the file does not record is live. */
  ghost predicate Recoverable(s: State, orig: Live) {
    match s.file
    case None => forall n :: n in s.live ==> n in orig && Original(s.live[n], orig[n])
    case Some(snap) =>
      && (forall n :: n in s.live && n !in Names(snap.services) ==> n in orig && Original(s.live[n], orig[n]))
      && (forall k :: 0 <= k < |snap.services| ==> RecordsOriginal(snap.services[k], orig))
  }

  predicate RecordsOriginal(svc: ServiceState, orig: Live) {
    svc.name in orig && svc.auto.Some? && Original(ConfigOf(svc), orig[svc.name])
  }

  lemma {:induction false} SettledIsOriginal(c: Config, d: Config)
    requires Settled(c, d)
    ensures Original(c, d)
  {
    RestoredIsSame(d);
  }

  /** Crash safety. Over any sequence of switching on, switching off and restoring, with any
      commands failing and a crash after any step: without a state file the live settings are
      the original ones; with one, it records the original ones of every service that may
      have been touched. */
  lemma {:induction false} CrashSafety(orig: Live, acts: seq<Action>)
    requires Trace(Fresh(orig), acts)
    ensures Recoverable(After(Fresh(orig), acts), orig)
  {
    TraceKeeps(orig, acts);
    var s := After(Fresh(orig), acts);
    var names := if s.file.None? then [] else Names(s.file.value.services);
    forall n | n in s.live && n !in names
      ensures n in orig && Original(s.live[n], orig[n])
    {
      SettledIsOriginal(s.live[n], orig[n]);
    }
    if s.file.Some? {
      FileRecords(s.file.value.services, orig);
    }
  }

  lemma {:induction false} FileRecords(services: seq<ServiceState>, orig: Live)
    requires AllRecord(services, orig)
    ensures forall k :: 0 <= k < |services| ==> RecordsOriginal(services[k], orig)
  {
    forall k | 0 <= k < |services|
      ensures RecordsOriginal(services[k], orig)
    {
      RecordAt(services, orig, k);
      SettledIsOriginal(ConfigOf(services[k]), orig[services[k].name]);
    }
  }

  /** A restore that ends without an error removes the file, and then each service it covered
      that still exists is as before pano if and only if its configuration is restorable. */
  lemma {:induction false} RestoreIsExactOverRuns(orig: Live, acts: seq<Action>)
    requires Trace(Fresh(orig), acts)
    requires var pc := After(Fresh(orig), acts).pc; pc.Restoring? && AtEnd(pc) && !pc.failed
    ensures var s := After(Fresh(orig), acts);
            && Enabled(s, Finish(true)) && Next(s, Finish(true)).file.None? && Next(s, Finish(true)).live == s.live
            && AllUndone(s.live, orig, s.pc.snap.services)
  {
    TraceKeeps(orig, acts);
    var s := After(Fresh(orig), acts);
    forall k | 0 <= k < |s.pc.snap.services|
      ensures Undone(s.live, orig, s.pc.snap.services[k].name)
    {
      RecordAt(s.pc.snap.services, orig, k);
      if s.pc.snap.services[k].name in s.live {
        RestoredSettles(s.live, orig, s.pc.snap.services[k]);
      }
    }
  }

  predicate Undone(live: Live, orig: Live, name: string) {
    name in live ==> name in orig && (Same(live[name], orig[name]) <==> Restorable(orig[name]))
  }

  /** As far as that can be, the services are as they were before pano. */
  ghost predicate AllUndone(live: Live, orig: Live, services: seq<ServiceState>) {
    forall k :: 0 <= k < |services| ==> Undone(live, orig, services[k].name)
  }

  // ---- Recovery is always possible ---------------------------------------------------

  lemma {:induction false} Extend(s: State, acts: seq<Action>, a: Action)
    requires Trace(s, acts) && Enabled(After(s, acts), a)
    ensures Trace(s, acts + [a]) && After(s, acts + [a]) == Next(After(s, acts), a)
  {
    FrontLastSnoc(acts, a);
  }

  /** The number of commands from service i on. */
  function Remaining(services: seq<ServiceState>, i: nat): nat
    requires i <= |services|
    decreases |services| - i
  {
    if i == |services| then 0 else |RestoreCommands(services[i])| + Remaining(services, i + 1)
  }

  /** A restore in which nothing has failed. */
  ghost predicate Smooth(s: State) {
    s.pc.Restoring? && !s.pc.failed && !s.pc.svcFailed && s.pc.i <= |s.pc.snap.services|
  }

  /** One more command that works. */
  lemma {:induction false} WorkingStep(s: State)
    requires Smooth(s) && AtCommand(s.pc)
    ensures Enabled(s, Run(Ok, false))
    ensures var t := Next(s, Run(Ok, false));
            && Smooth(t) && t.pc.snap == s.pc.snap && t.live.Keys == s.live.Keys
            && Remaining(t.pc.snap.services, t.pc.i) - t.pc.j < Remaining(s.pc.snap.services, s.pc.i) - s.pc.j
  {
  }

  /** If every command works from here on, the restore completes. */
  lemma {:induction false} RestoreCompletes(orig: Live, acts: seq<Action>) returns (more: seq<Action>)
    requires Trace(Fresh(orig), acts)
    requires Smooth(After(Fresh(orig), acts))
    ensures acts <= more && Trace(Fresh(orig), more)
    ensures After(Fresh(orig), more).file.None? && After(Fresh(orig), more).pc.Idle?
    ensures After(Fresh(orig), more).live.Keys == After(Fresh(orig), acts).live.Keys
    ensures AllUndone(After(Fresh(orig), more).live, orig, After(Fresh(orig), acts).pc.snap.services)
    decreases var pc := After(Fresh(orig), acts).pc; Remaining(pc.snap.services, pc.i) - pc.j
  {
    var s := After(Fresh(orig), acts);
    TraceKeeps(orig, acts);
    if AtEnd(s.pc) {
      RestoreIsExactOverRuns(orig, acts);
      Extend(Fresh(orig), acts, Finish(true));
      more := acts + [Finish(true)];
    } else {
      WorkingStep(s);
      Extend(Fresh(orig), acts, Run(Ok, false));
      more := RestoreCompletes(orig, acts + [Run(Ok, false)]);
    }
  }

  /** The process dies and starts again. */
  lemma {:induction false} Die(orig: Live, acts: seq<Action>)
    requires Trace(Fresh(orig), acts)
    ensures var more := acts + [Crash];
            Trace(Fresh(orig), more) && After(Fresh(orig), more) == After(Fresh(orig), acts).(pc := Idle)
  {
    Extend(Fresh(orig), acts, Crash);
  }

  lemma {:induction false} Begin(orig: Live, acts: seq<Action>)
    requires Trace(Fresh(orig), acts) && After(Fresh(orig), acts).pc.Idle? && After(Fresh(orig), acts).file.Some?
    ensures var more := acts + [StartRestore];
            && Trace(Fresh(orig), more)
            && var m := After(Fresh(orig), acts);
               After(Fresh(orig), more) == m.(pc := Restoring(m.file.value, 0, 0, false, false))
  {
    Extend(Fresh(orig), acts, StartRestore);
  }

  /** Everything is as it was before pano. */
  ghost predicate AllOriginal(s: State, orig: Live) {
    s.file.None? && forall n :: n in s.live ==> n in orig && Original(s.live[n], orig[n])
  }

  /** From wherever a run has got to, a crash included, there is a way back to the original
      settings of all the services there are. */
  lemma {:induction false} AlwaysRecoverable(orig: Live, acts: seq<Action>) returns (more: seq<Action>)
    requires Trace(Fresh(orig), acts)
    ensures acts <= more && Trace(Fresh(orig), more) && AllOriginal(After(Fresh(orig), more), orig)
    ensures After(Fresh(orig), more).live.Keys == After(Fresh(orig), acts).live.Keys
  {
    Die(orig, acts);
    more := acts + [Crash];
    if After(Fresh(orig), more).file.Some? {
      Begin(orig, more);
      more := RestoreCompletes(orig, more + [StartRestore]);
    }
    CrashSafety(orig, more);
  }

  /** Switching on covers exactly the services listed, in order; with a file already there, those
      it covers. */
  lemma {:induction false} EnableCoversListed(orig: Live, acts: seq<Action>, names: seq<string>, pano: Endpoint,
        extra: seq<string>, queried: set<string>)
    requires Trace(Fresh(orig), acts)
    requires Enabled(After(Fresh(orig), acts), StartEnable(names, pano, extra, queried))
    ensures var more := acts + [StartEnable(names, pano, extra, queried)] + [Write(true)];
            && Trace(Fresh(orig), more)
            && var s, t := After(Fresh(orig), acts), After(Fresh(orig), more);
               t.file.Some? && t.file.value.pano == pano
               && if s.file.None? then Names(t.file.value.services) == names
                  else t.file.value.services == s.file.value.services
  {
    var s, a := After(Fresh(orig), acts), StartEnable(names, pano, extra, queried);
    TraceKeeps(orig, acts);
    Extend(Fresh(orig), acts, a);
    Extend(Fresh(orig), acts + [a], Write(true));
    if s.file.None? {
      CaptureGood(s.live, orig, names);
    } else {
      BackfilledGood(s.live, orig, s.file.value.services, queried);
    }
  }

  // ---- What is lost ------------------------------------------------------------------

  /** Wherever a service has a configuration that is not restorable, some run loses it: pano
      dies once the snapshot is written, and the restore after that completes without an
      error, removes the file and leaves the service with other settings. */
  lemma {:induction false} UnrestorableIsLost(orig: Live, name: string, pano: Endpoint) returns (acts: seq<Action>)
    requires name in orig && !Restorable(orig[name])
    ensures Trace(Fresh(orig), acts)
    ensures var s := After(Fresh(orig), acts);
            s.file.None? && s.pc.Idle? && name in s.live && !Same(s.live[name], orig[name])
  {
    acts := WrittenOnly(orig, name, pano);
    Begin(orig, acts);
    acts := acts + [StartRestore];
    var services := After(Fresh(orig), acts).pc.snap.services;
    acts := RestoreCompletes(orig, acts);
    assert services[0].name == name;
    assert name in After(Fresh(orig), acts).live.Keys;
  }

  /** The snapshot is written, and nothing else has happened. */
  lemma {:induction false} WrittenOnly(orig: Live, name: string, pano: Endpoint) returns (acts: seq<Action>)
    requires name in orig
    ensures Trace(Fresh(orig), acts)
    ensures After(Fresh(orig), acts)
         == State(orig, Some(Snapshot(pano, [CaptureService(orig, name)], false)), Idle)
  {
    var none: seq<Action> := [];
    var names, none' : seq<string> := [name], [];
    assert Front(names) == none' && Last(names) == name && NoRepeats(names);
    assert Capture(orig, none') == [];
    assert Capture(orig, names) == [CaptureService(orig, name)];
    var start := StartEnable(names, pano, [], {});
    Extend(Fresh(orig), none, start);
    acts := none + [start];
    Extend(Fresh(orig), acts, Write(true));
    acts := acts + [Write(true)];
    Die(orig, acts);
    acts := acts + [Crash];
  }

  // ---- Administrator rights ----------------------------------------------------------

  /** A command since the snapshot was written ran with administrator rights. */
  predicate RanAsAdmin(acts: seq<Action>) {
    && acts != []
    && match Last(acts)
       case Run(_, admin) => admin || RanAsAdmin(Front(acts))
       case Vanish(_) => RanAsAdmin(Front(acts))
       case _ => false
  }

  lemma {:induction false} AdminNoted(orig: Live, acts: seq<Action>)
    requires Trace(Fresh(orig), acts) && After(Fresh(orig), acts).pc.Switching?
    ensures var s := After(Fresh(orig), acts);
            s.file == Some(s.pc.snap) && s.pc.usedAdmin == (s.pc.snap.usedAdmin || RanAsAdmin(acts))
  {
    if acts != [] {
      var s := After(Fresh(orig), Front(acts));
      if s.pc.Switching? {
        AdminNoted(orig, Front(acts));
      }
    }
  }

  /** Enabling that completes leaves its snapshot, which then says whether a command ever ran
      with administrator rights. */
  lemma {:induction false} AdminIsRecorded(orig: Live, acts: seq<Action>)
    requires Trace(Fresh(orig), acts)
    requires After(Fresh(orig), acts).pc.Switching? && Enabled(After(Fresh(orig), acts), Finish(true))
    ensures var s := After(Fresh(orig), acts);
            Next(s, Finish(true)).file == Some(s.pc.snap.(usedAdmin := s.pc.snap.usedAdmin || RanAsAdmin(acts)))
  {
    AdminNoted(orig, acts);
  }

  /** Without administrator rights, no snapshot says there were any. */
  lemma {:induction false} NeverAdmin(orig: Live, acts: seq<Action>)
    requires Trace(Fresh(orig), acts) && forall k :: 0 <= k < |acts| && acts[k].Run? ==> !acts[k].admin
    ensures var s := After(Fresh(orig), acts);
            && (s.file.Some? ==> !s.file.value.usedAdmin)
            && (s.pc.Writing? ==> !s.pc.snap.usedAdmin)
            && (s.pc.Switching? ==> !s.pc.snap.usedAdmin && !s.pc.usedAdmin)
  {
    if acts != [] {
      NeverAdmin(orig, Front(acts));
      assert acts[|acts| - 1] == Last(acts);
    }
  }

  // ---- Errors ------------------------------------------------------------------------

  /** Enabling gives up on a service at its first error and goes on with the next; restoring runs
      the rest of its commands all the same, unless the service is gone, and then forgets what
      failed for it before. */
  lemma {:induction false} AfterAnError(s: State, result: Result, admin: bool)
    requires Enabled(s, Run(result, admin)) && !result.Ok?
    ensures var t := Next(s, Run(result, admin)).pc;
            && t.snap == s.pc.snap
            && (s.pc.Switching? ==> t.Switching? && t.i == s.pc.i + 1 && t.j == 0)
            && (s.pc.Restoring? && result.Missing? ==>
                  t.Restoring? && t.i == s.pc.i + 1 && t.j == 0 && !t.svcFailed && t.failed == s.pc.failed)
            && (s.pc.Restoring? && result.Failed? ==>
                  && t.Restoring? && t.failed == (s.pc.failed || t.i != s.pc.i)
                  && if s.pc.j + 1 < |RestoreCommands(s.pc.snap.services[s.pc.i])|
                     then t.i == s.pc.i && t.j == s.pc.j + 1 && t.svcFailed
                     else t.i == s.pc.i + 1 && t.j == 0 && !t.svcFailed)
  {
  }
}
