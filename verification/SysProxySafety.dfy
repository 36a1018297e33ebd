/** Crash safety of the system proxy switch: every step keeps the invariant. */
module SysProxySafety {
  import opened Options
  import opened Seqs
  import opened SysProxy
  import opened SysProxyMachine

  // ---- Snapshots ---------------------------------------------------------------------

  lemma {:induction false} NameOf(services: seq<ServiceState>, k: nat)
    requires k < |services|
    ensures services[k].name in Names(services)
  {
    if k < |services| - 1 {
      NameOf(Front(services), k);
    }
  }

  lemma {:induction false} Named(services: seq<ServiceState>, n: string) returns (k: nat)
    requires n in Names(services)
    ensures k < |services| && services[k].name == n
  {
    if n == Last(services).name {
      k := |services| - 1;
    } else {
      k := Named(Front(services), n);
    }
  }

  lemma {:induction false} RecordAt(services: seq<ServiceState>, orig: Live, k: nat)
    requires k < |services| && AllRecord(services, orig)
    ensures Records(services[k], orig)
  {
    if k < |services| - 1 {
      RecordAt(Front(services), orig, k);
    }
  }

  lemma {:induction false} NamesDiffer(services: seq<ServiceState>, k: nat, l: nat)
    requires k < l < |services| && NoRepeats(Names(services))
    ensures services[k].name != services[l].name
  {
    FrontLastSnoc(Names(Front(services)), Last(services).name);
    if l < |services| - 1 {
      NamesDiffer(Front(services), k, l);
    } else {
      NameOf(Front(services), k);
    }
  }

  lemma {:induction false} CaptureGood(live: Live, orig: Live, names: seq<string>)
    requires SameUrls(live, orig) && OthersSettled(live, orig, []) && forall n :: n in names ==> n in live
    ensures AllRecord(Capture(live, names), orig) && Names(Capture(live, names)) == names
  {
    if names != [] {
      assert Last(names) in names && forall n :: n in Front(names) ==> n in names;
      CaptureGood(live, orig, Front(names));
      FrontLast(names);
      FrontLastSnoc(Capture(live, Front(names)), CaptureService(live, Last(names)));
    }
  }

  lemma {:induction false} BackfilledGood(live: Live, orig: Live, services: seq<ServiceState>, queried: set<string>)
    requires AllRecord(services, orig)
    ensures Backfilled(live, services, queried) == services
  {
    if services != [] {
      BackfilledGood(live, orig, Front(services), queried);
      FrontLast(services);
    }
  }

  // ---- Starting ----------------------------------------------------------------------

  /** Only what an old snapshot lacks is filled in, and only where the query for it works. */
  lemma {:induction false} BackfilledAt(live: Live, services: seq<ServiceState>, queried: set<string>, k: nat)
    requires k < |services|
    ensures var svc, r := services[k], Backfilled(live, services, queried);
            && |r| == |services| && r[k].name == svc.name && r[k].web == svc.web && r[k].secure == svc.secure
            && r[k].bypass == svc.bypass
            && r[k].auto == if svc.auto.None? && svc.name in queried * live.Keys then Some(live[svc.name].auto)
                            else svc.auto
  {
    if k < |services| - 1 {
      BackfilledAt(live, Front(services), queried, k);
    } else if |services| > 1 {
      BackfilledAt(live, Front(services), queried, 0);
    }
  }

  lemma {:induction false} StartKeeps(s: State, orig: Live, names: seq<string>, pano: Endpoint, extra: seq<string>,
        queried: set<string>)
    requires Inv(s, orig) && Enabled(s, StartEnable(names, pano, extra, queried))
    ensures Inv(Next(s, StartEnable(names, pano, extra, queried)), orig)
  {
    if s.file.None? {
      CaptureGood(s.live, orig, names);
    } else {
      BackfilledGood(s.live, orig, s.file.value.services, queried);
    }
  }

  lemma {:induction false} StartRestoreKeeps(s: State, orig: Live)
    requires Inv(s, orig) && Enabled(s, StartRestore)
    ensures Inv(Next(s, StartRestore), orig)
  {
    var services := s.file.value.services;
    if services != [] {
      RecordAt(services, orig, 0);
      RestoreAhead(s.live, orig, services[0]);
    }
  }

  /** The commands of a service, all still to run, will restore it from wherever it is. */
  lemma {:induction false} RestoreAhead(live: Live, orig: Live, svc: ServiceState)
    requires SameUrls(live, orig) && Records(svc, orig)
    ensures |RestoreCommands(svc)| > 0 && OnTheWay(live, svc, 0)
  {
    TakeAll(RestoreCommands(svc));
    if svc.name in live {
      AllRestored(live[svc.name], svc);
    }
  }

  lemma {:induction false} WriteKeeps(s: State, orig: Live, ok: bool)
    requires Inv(s, orig) && s.pc.Writing?
    ensures Inv(Next(s, Write(ok)), orig)
  {
  }

  // ---- Commands ----------------------------------------------------------------------

  /** A command of the list keeps a PAC URL that its snapshot recorded. */
  predicate KeepsUrl(cmd: Command, url: string) {
    cmd.SetAutoUrl? ==> cmd.url == url
  }

  lemma {:induction false} EnableKeepsUrl(pano: Endpoint, bypass: seq<string>, j: nat, url: string)
    requires j < 5
    ensures |EnableCommands(pano, bypass)| == 5 && KeepsUrl(EnableCommands(pano, bypass)[j], url)
  {
  }

  lemma {:induction false} RestoreKeepsUrl(svc: ServiceState, j: nat)
    requires svc.auto.Some? && j < |RestoreCommands(svc)|
    ensures KeepsUrl(RestoreCommands(svc)[j], svc.auto.value.url)
  {
    var x := WebCommands(svc.web) + SecureCommands(svc.secure) + [SetBypass(BypassArgs(svc.bypass))];
    forall k | 0 <= k < |x|
      ensures KeepsUrl(x[k], svc.auto.value.url)
    {
    }
    forall k | 0 <= k < |AutoCommands(svc.auto)|
      ensures KeepsUrl(AutoCommands(svc.auto)[k], svc.auto.value.url)
    {
    }
    assert RestoreCommands(svc)[j] == if j < |x| then x[j] else AutoCommands(svc.auto)[j - |x|];
  }

  lemma {:induction false} RunKeepsUrls(live: Live, orig: Live, name: string, cmd: Command, result: Result)
    requires SameUrls(live, orig) && (name in live ==> KeepsUrl(cmd, orig[name].auto.url))
    ensures SameUrls(RunAt(live, name, cmd, result), orig)
  {
  }

  lemma {:induction false} RunKeepsOthers(live: Live, orig: Live, name: string, cmd: Command, result: Result,
        names: seq<string>)
    requires SameUrls(live, orig) && OthersSettled(live, orig, names) && name in names
    ensures OthersSettled(RunAt(live, name, cmd, result), orig, names)
  {
  }

  lemma {:induction false} RunKeepsFile(file: Option<Snapshot>, live: Live, orig: Live, name: string, cmd: Command,
        result: Result)
    requires file.Some? && SameUrls(live, orig) && FileOk(file, live, orig) && name in Names(file.value.services)
    ensures FileOk(file, RunAt(live, name, cmd, result), orig)
  {
    RunKeepsOthers(live, orig, name, cmd, result, Names(file.value.services));
  }

  lemma {:induction false} SwitchKeepsUrls(live: Live, orig: Live, svc: ServiceState, pano: Endpoint,
        extra: seq<string>, j: nat,
                        result: Result)
    requires SameUrls(live, orig) && j < |EnableList(svc, pano, extra)|
    ensures SameUrls(RunAt(live, svc.name, EnableList(svc, pano, extra)[j], result), orig)
  {
    var cmd := EnableList(svc, pano, extra)[j];
    if svc.name in live {
      EnableKeepsUrl(pano, MergeBypass(svc.bypass, extra), j, orig[svc.name].auto.url);
    }
    RunKeepsUrls(live, orig, svc.name, cmd, result);
  }

  lemma {:induction false} SwitchingGoesOn(pc: Pc, result: Result, admin: bool)
    requires pc.Switching? && AtCommand(pc)
    ensures var q := SwitchingNext(pc, result, admin);
            q.Switching? && q.snap == pc.snap && q.i <= |pc.snap.services| && q.j < 5
  {
  }

  lemma {:induction false} SwitchKeeps(s: State, orig: Live, result: Result, admin: bool)
    requires Inv(s, orig) && s.pc.Switching? && Enabled(s, Run(result, admin))
    ensures Inv(Next(s, Run(result, admin)), orig)
  {
    var services, i := s.pc.snap.services, s.pc.i;
    NameOf(services, i);
    SwitchKeepsUrls(s.live, orig, services[i], s.pc.snap.pano, s.pc.extra, s.pc.j, result);
    RunKeepsFile(s.file, s.live, orig, services[i].name, Commands(s.pc)[s.pc.j], result);
    SwitchingGoesOn(s.pc, result, admin);
  }

  /** A command that worked leaves one less to run. */
  lemma {:induction false} RunGoesOn(live: Live, svc: ServiceState, j: nat, result: Result)
    requires svc.auto.Some? && j < |RestoreCommands(svc)| && OnTheWay(live, svc, j) && result.Ok?
    ensures OnTheWay(RunAt(live, svc.name, RestoreCommands(svc)[j], result), svc, j + 1)
  {
    DropTail(RestoreCommands(svc), j);
  }

  lemma {:induction false} OtherStaysDone(live: Live, svc: ServiceState, name: string, cmd: Command, result: Result)
    requires svc.auto.Some? && svc.name != name && Done(live, svc)
    ensures Done(RunAt(live, name, cmd, result), svc)
  {
  }

  lemma {:induction false} RunKeepsPassed(live: Live, services: seq<ServiceState>, i: nat, cmd: Command, result: Result)
    requires i < |services| && NoRepeats(Names(services)) && Passed(live, services, i)
    ensures Passed(RunAt(live, services[i].name, cmd, result), services, i)
  {
    forall k | 0 <= k < i
      ensures services[k].auto.Some? && Done(RunAt(live, services[i].name, cmd, result), services[k])
    {
      NamesDiffer(services, k, i);
      OtherStaysDone(live, services[k], services[i].name, cmd, result);
    }
  }

  lemma {:induction false} AllRun(live: Live, svc: ServiceState)
    requires svc.auto.Some? && OnTheWay(live, svc, |RestoreCommands(svc)|)
    ensures Done(live, svc)
  {
  }

  /** The progress of a restore after a command of service i; on to the next service. */
  lemma {:induction false} NextService(live: Live, orig: Live, services: seq<ServiceState>, i: nat, n: nat)
    requires n == i + 1 <= |services| && SameUrls(live, orig) && AllRecord(services, orig)
    requires Passed(live, services, i) && services[i].auto.Some? && Done(live, services[i])
    ensures Passed(live, services, n)
  {
  }

  lemma {:induction false} ServiceAhead(live: Live, orig: Live, services: seq<ServiceState>, n: nat)
    requires n < |services| && SameUrls(live, orig) && AllRecord(services, orig)
    ensures services[n].auto.Some? && |RestoreCommands(services[n])| > 0 && OnTheWay(live, services[n], 0)
  {
    RecordAt(services, orig, n);
    RestoreAhead(live, orig, services[n]);
  }

  /** A service has been left behind: restored, unless something failed. */
  lemma {:induction false} LeavesService(s: State, orig: Live, result: Result, live: Live)
    requires s.pc.Restoring? && AtCommand(s.pc) && Progress(s) && AllRecord(s.pc.snap.services, orig)
    requires NoRepeats(Names(s.pc.snap.services)) && SameUrls(live, orig)
    requires live == RunAt(s.live, s.pc.snap.services[s.pc.i].name, Commands(s.pc)[s.pc.j], result)
    requires result.Missing? ==> s.pc.snap.services[s.pc.i].name !in live
    requires RestoringNext(s.pc, result).i == s.pc.i + 1 && !RestoringNext(s.pc, result).failed
    ensures Passed(live, s.pc.snap.services, RestoringNext(s.pc, result).i)
  {
    var services, i := s.pc.snap.services, s.pc.i;
    RunKeepsPassed(s.live, services, i, Commands(s.pc)[s.pc.j], result);
    if result.Ok? {
      RunGoesOn(s.live, services[i], s.pc.j, result);
      AllRun(live, services[i]);
    }
    NextService(live, orig, services, i, RestoringNext(s.pc, result).i);
  }

  /** Still at service i, at its next command. */
  lemma {:induction false} StillOnTheWay(live: Live, svc: ServiceState, j: nat, result: Result, svcFailed: bool)
    requires svc.auto.Some? && j + 1 < |RestoreCommands(svc)| && !result.Missing?
    requires !svcFailed ==> OnTheWay(live, svc, j)
    ensures !svcFailed && !result.Failed? ==>
              OnTheWay(RunAt(live, svc.name, RestoreCommands(svc)[j], result), svc, j + 1)
  {
    if !svcFailed && result.Ok? { RunGoesOn(live, svc, j, result); }
  }

  lemma {:induction false} StaysAtService(s: State, result: Result, live: Live)
    requires s.pc.Restoring? && AtCommand(s.pc) && Progress(s) && NoRepeats(Names(s.pc.snap.services))
    requires live == RunAt(s.live, s.pc.snap.services[s.pc.i].name, Commands(s.pc)[s.pc.j], result)
    requires RestoringNext(s.pc, result).i == s.pc.i
    ensures Progress(State(live, s.file, RestoringNext(s.pc, result)))
  {
    var services, i := s.pc.snap.services, s.pc.i;
    if !s.pc.failed {
      RunKeepsPassed(s.live, services, i, Commands(s.pc)[s.pc.j], result);
    }
    StillOnTheWay(s.live, services[i], s.pc.j, result, s.pc.svcFailed);
  }

  lemma {:induction false} RestoreProgress(s: State, orig: Live, result: Result, live: Live)
    requires s.pc.Restoring? && AtCommand(s.pc) && Progress(s) && AllRecord(s.pc.snap.services, orig)
    requires NoRepeats(Names(s.pc.snap.services)) && SameUrls(live, orig)
    requires live == RunAt(s.live, s.pc.snap.services[s.pc.i].name, Commands(s.pc)[s.pc.j], result)
    requires result.Missing? ==> s.pc.snap.services[s.pc.i].name !in live
    ensures Progress(State(live, s.file, RestoringNext(s.pc, result)))
  {
    var pc := RestoringNext(s.pc, result);
    if pc.i == s.pc.i {
      StaysAtService(s, result, live);
    } else {
      if !pc.failed {
        LeavesService(s, orig, result, live);
      }
      if pc.i < |pc.snap.services| {
        ServiceAhead(live, orig, pc.snap.services, pc.i);
      }
    }
  }

  /** A restore command keeps all the PAC URLs and what the file promises. */
  lemma {:induction false} RestoreRuns(s: State, orig: Live, result: Result, live: Live)
    requires Inv(s, orig) && s.pc.Restoring? && AtCommand(s.pc)
    requires live == RunAt(s.live, s.pc.snap.services[s.pc.i].name, Commands(s.pc)[s.pc.j], result)
    ensures SameUrls(live, orig) && FileOk(s.file, live, orig)
  {
    var services := s.pc.snap.services;
    var svc := services[s.pc.i];
    NameOf(services, s.pc.i);
    RecordAt(services, orig, s.pc.i);
    RestoreKeepsUrl(svc, s.pc.j);
    var cmd := Commands(s.pc)[s.pc.j];
    RunKeepsUrls(s.live, orig, svc.name, cmd, result);
    RunKeepsFile(s.file, s.live, orig, svc.name, cmd, result);
  }

  lemma {:induction false} Restores(s: State, orig: Live)
    requires Inv(s, orig) && s.pc.Restoring?
    ensures Progress(s) && AllRecord(s.pc.snap.services, orig) && NoRepeats(Names(s.pc.snap.services))
  {
  }

  lemma {:induction false} Ran(s: State, orig: Live, live: Live, pc: Pc)
    requires SameUrls(live, orig) && FileOk(s.file, live, orig) && pc.Restoring? && Progress(State(live, s.file, pc))
    ensures Inv(State(live, s.file, pc), orig)
  {
  }

  lemma {:induction false} RestoreKeeps(s: State, orig: Live, result: Result, admin: bool)
    requires Inv(s, orig) && s.pc.Restoring? && Enabled(s, Run(result, admin))
    ensures Inv(Next(s, Run(result, admin)), orig)
  {
    var live := RunAt(s.live, s.pc.snap.services[s.pc.i].name, Commands(s.pc)[s.pc.j], result);
    Restores(s, orig);
    RestoreRuns(s, orig, result, live);
    RestoreProgress(s, orig, result, live);
    Ran(s, orig, live, RestoringNext(s.pc, result));
  }

  // ---- Finishing ---------------------------------------------------------------------

  /** A service restored from a settled record is settled, and is as it was at first if and
      only if that was restorable. */
  lemma {:induction false} RestoredSettles(live: Live, orig: Live, svc: ServiceState)
    requires SameUrls(live, orig) && Records(svc, orig) && Done(live, svc) && svc.name in live
    ensures Settled(live[svc.name], orig[svc.name])
    ensures Same(live[svc.name], orig[svc.name]) <==> Restorable(orig[svc.name])
  {
    RestoredIsSame(orig[svc.name]);
    RestoredIsSame(ConfigOf(svc));
    RestoredIsSame(live[svc.name]);
  }

  lemma {:induction false} AllSettled(live: Live, orig: Live, services: seq<ServiceState>)
    requires SameUrls(live, orig) && AllRecord(services, orig) && OthersSettled(live, orig, Names(services))
    requires Passed(live, services, |services|)
    ensures OthersSettled(live, orig, [])
  {
    forall n | n in live
      ensures Settled(live[n], orig[n])
    {
      if n in Names(services) {
        var k := Named(services, n);
        RecordAt(services, orig, k);
        RestoredSettles(live, orig, services[k]);
      }
    }
  }

  lemma {:induction false} FinishKeeps(s: State, orig: Live, ok: bool)
    requires Inv(s, orig) && Enabled(s, Finish(ok))
    ensures Inv(Next(s, Finish(ok)), orig)
  {
    if ok && s.pc.Restoring? && !s.pc.failed {
      AllSettled(s.live, orig, s.pc.snap.services);
    }
  }

  lemma {:induction false} VanishKeeps(s: State, orig: Live, name: string)
    requires Inv(s, orig)
    ensures Inv(Next(s, Vanish(name)), orig)
  {
  }

  lemma {:induction false} StepKeeps(s: State, orig: Live, a: Action)
    requires Inv(s, orig) && Enabled(s, a)
    ensures Inv(Next(s, a), orig)
  {
    match a
    case StartEnable(names, pano, extra, queried) => StartKeeps(s, orig, names, pano, extra, queried);
    case StartRestore => StartRestoreKeeps(s, orig);
    case Write(ok) => WriteKeeps(s, orig, ok);
    case Run(result, admin) =>
      if s.pc.Switching? {
        SwitchKeeps(s, orig, result, admin);
      } else {
        RestoreKeeps(s, orig, result, admin);
      }
    case Finish(ok) => FinishKeeps(s, orig, ok);
    case Crash =>
    case Vanish(name) => VanishKeeps(s, orig, name);
  }
}
