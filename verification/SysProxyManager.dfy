/** The manager's methods. Whatever they do outside themselves is a step of the machine, so
    what holds over all its runs holds wherever one of them is interrupted. */
module SysProxyManager {
  import opened Options
  import opened Seqs
  import opened SysProxy
  import opened SysProxyMachine
  import opened SysProxyRuns
  import opened SysProxySafety
  import opened Text

  /** A service points at pano, and nothing overrides that. */
  predicate Pointed(live: Live, svc: ServiceState, pano: Endpoint, extra: seq<string>) {
    svc.name in live ==>
      var c := live[svc.name];
      var s := Setting(true, pano.host, pano.port);
      && c.web == s && c.secure == s && !c.auto.enabled && !c.auto.discovery
      && c.bypass == MergeBypass(svc.bypass, extra)
  }

  /** Service n points at pano with the merged bypass list of what it had, and nothing overrides
      that. */
  predicate Switched(live: Live, n: string, bypass: seq<string>, pano: Endpoint, extra: seq<string>) {
    n in live ==>
      && live[n].web == Setting(true, pano.host, pano.port) && live[n].secure == Setting(true, pano.host, pano.port)
      && live[n].bypass == MergeBypass(bypass, extra) && !live[n].auto.enabled && !live[n].auto.discovery
  }

  /** All services of the snapshot are there. */
  predicate AllThere(services: seq<ServiceState>, live: Live) {
    forall k :: 0 <= k < |services| ==> services[k].name in live
  }

  /** There are services to switch. */
  predicate CanEnable(file: Option<Snapshot>, live: Live, listed: Option<seq<string>>) {
    if file.Some? then AllThere(file.value.services, live) else listed.Some? && listed.value != []
  }

  /** All but the services named are as they were. */
  ghost predicate OthersKept(was: Live, live: Live, names: seq<string>) {
    live.Keys == was.Keys && forall n :: n in live && n !in names ==> live[n] == was[n]
  }

  lemma {:induction false} OneMoreKept(start: Live, was: Live, live: Live, names: seq<string>, name: string)
    requires OthersKept(start, was, names) && name in names && live.Keys == was.Keys
    requires forall n :: n in live && n != name ==> live[n] == was[n]
    ensures OthersKept(start, live, names)
  {
  }

  predicate AllPointed(live: Live, services: seq<ServiceState>, i: nat, pano: Endpoint, extra: seq<string>)
    requires i <= |services|
  {
    forall k :: 0 <= k < i ==> Pointed(live, services[k], pano, extra)
  }

  lemma {:induction false} OneMorePointed(was: Live, live: Live, services: seq<ServiceState>, i: nat, pano: Endpoint,
        extra: seq<string>)
    requires i < |services| && NoRepeats(Names(services)) && AllPointed(was, services, i, pano, extra)
    requires live.Keys == was.Keys && forall n :: n in live && n != services[i].name ==> live[n] == was[n]
    requires Pointed(live, services[i], pano, extra)
    ensures AllPointed(live, services, i + 1, pano, extra)
  {
    forall k | 0 <= k < i
      ensures Pointed(live, services[k], pano, extra)
    {
      NamesDiffer(services, k, i);
      assert Pointed(was, services[k], pano, extra);
    }
  }

  /** When the system is reliable, no query, command or write fails. */
  class Manager {
    const reliable: bool
    var live: Live
    var file: Option<Snapshot>
    ghost const before: Live
    ghost var pc: Pc
    ghost var acts: seq<Action>

    ghost function Current(): State reads this {
      State(live, file, pc)
    }

    /** Everything so far was a run of the machine. */
    ghost predicate Valid() reads this {
      Trace(Fresh(before), acts) && After(Fresh(before), acts) == Current()
    }

    constructor (live: Live, reliable: bool)
      ensures Valid() && pc.Idle? && before == live && this.live == live && file.None? && this.reliable == reliable
    {
      this.reliable := reliable;
      this.live, before, file, pc, acts := live, live, None, Idle, [];
    }

    /** Takes note of a step. */
    ghost method Did(a: Action, s: State)
      requires Trace(Fresh(before), acts) && After(Fresh(before), acts) == s
      requires Enabled(s, a) && Next(s, a) == State(live, file, Next(s, a).pc)
      modifies `pc, `acts
      ensures Valid() && Current() == Next(s, a)
      ensures acts == old(acts) + [a]
    {
      Extend(Fresh(before), acts, a);
      acts, pc := acts + [a], Next(s, a).pc;
    }

    /** Runs one command, with administrator rights if it has to. */
    method Set(name: string, cmd: Command) returns (result: Result, admin: bool)
      requires Valid() && AtCommand(pc)
      requires name == pc.snap.services[pc.i].name && cmd == Commands(pc)[pc.j]
      modifies this
      ensures Valid() && file == old(file) && old(acts) <= acts
      ensures live == RunAt(old(live), name, cmd, result) && (result.Missing? ==> name !in old(live))
      ensures pc == if old(pc).Switching? then SwitchingNext(old(pc), result, admin) else RestoringNext(old(pc), result)
      ensures reliable ==> !result.Failed? && (name in old(live) ==> result.Ok?)
    {
      var works: bool, applied: bool, gone: bool := *, *, *;
      if reliable { works, gone := name in live, true; }
      admin := *;
      result := if works then Ok else if name !in live && gone then Missing else Failed(applied);
      ghost var was := Current();
      if name in live && (works || applied) {
        live := live[name := Apply(live[name], cmd)];
      }
      Did(Run(result, admin), was);
    }

    /** Replaces the state file, atomically. */
    method WriteSnapshot(snap: Snapshot) returns (ok: bool)
      modifies `file
      ensures file == (if ok then Some(snap) else old(file)) && (reliable ==> ok)
    {
      ok := *;
      ok := ok || reliable;
      if ok { file := Some(snap); }
    }

    method CaptureAll(names: seq<string>) returns (services: Option<seq<ServiceState>>)
      requires forall n :: n in names ==> n in live
      ensures services.Some? ==> services.value == Capture(live, names)
      ensures reliable ==> services.Some?
    {
      var out := [];
      TakeAll(names);
      for i := 0 to |names|
        invariant (forall n :: n in names[..i] ==> n in live) && out == Capture(live, names[..i])
      {
        var queried: bool := *;
        if !queried && !reliable { return None; }
        assert names[i] in names;
        TakeSnoc(names, i);
        FrontLastSnoc(names[..i], names[i]);
        out := out + [CaptureService(live, names[i])];
      }
      return Some(out);
    }

    /** The snapshot Enable goes by: a fresh one, or the one there is with a new target. */
    method Prepare(listed: Option<seq<string>>, pano: Endpoint, queried: set<string>) returns (snap: Option<Snapshot>)
      requires listed.Some? ==> NoRepeats(listed.value) && forall n :: n in listed.value ==> n in live
      ensures snap.Some? ==>
                && (file.None? ==> listed.Some? && listed.value != [])
                && snap.value == Started(Current(), if listed.Some? then listed.value else [], pano, queried)
      ensures reliable && (file.Some? || (listed.Some? && listed.value != [])) ==> snap.Some?
    {
      if file.Some? {
        return Some(Snapshot(pano, Backfilled(live, file.value.services, queried), file.value.usedAdmin));
      }
      if listed.None? || listed.value == [] { return None; }
      var services := CaptureAll(listed.value);
      if services.None? { return None; }
      return Some(Snapshot(pano, services.value, false));
    }

    /** Runs command j of service i. */
    method SwitchOne(snap: Snapshot, extra: seq<string>, i: nat, j: nat, usedAdmin: bool) returns (admin: bool,
          failed: bool)
      requires Valid() && i < |snap.services| && j < 5 && pc == Switching(snap, extra, i, j, usedAdmin)
      modifies this
      ensures Valid() && file == old(file) && old(acts) <= acts && live.Keys == old(live).Keys
      ensures pc == if failed || j == 4 then Switching(snap, extra, i + 1, 0, admin)
                    else Switching(snap, extra, i, j + 1, admin)
      ensures forall n :: n in live && n != snap.services[i].name ==> live[n] == old(live)[n]
      ensures var svc := snap.services[i];
              !failed && svc.name in live ==>
                live[svc.name] == Apply(old(live)[svc.name], EnableList(svc, snap.pano, extra)[j])
      ensures reliable && snap.services[i].name in old(live) ==> !failed
    {
      var svc := snap.services[i];
      var result, a := Set(svc.name, EnableList(svc, snap.pano, extra)[j]);
      return usedAdmin || a, !result.Ok?;
    }

    /** Runs the commands of service i; it stops at the first error. */
    method SwitchService(snap: Snapshot, extra: seq<string>, i: nat, usedAdmin: bool) returns (admin: bool,
          failed: bool)
      requires Valid() && i < |snap.services| && pc == Switching(snap, extra, i, 0, usedAdmin)
      modifies this
      ensures Valid() && file == old(file) && old(acts) <= acts && live.Keys == old(live).Keys
      ensures pc == Switching(snap, extra, i + 1, 0, admin)
      ensures forall n :: n in live && n != snap.services[i].name ==> live[n] == old(live)[n]
      ensures !failed ==> Pointed(live, snap.services[i], snap.pano, extra)
      ensures reliable && snap.services[i].name in old(live) ==> !failed
    {
      var svc := snap.services[i];
      ghost var cmds := EnableList(svc, snap.pano, extra);
      ghost var none := Config(svc.web, svc.secure, [], Auto("", false, false));
      ghost var c := if svc.name in live then live[svc.name] else none;
      var j := 0;
      admin, failed := usedAdmin, false;
      TakeAll(cmds);
      while j < 5 && !failed
        invariant j <= 5 && Valid() && file == old(file) && old(acts) <= acts && live.Keys == old(live).Keys
        invariant pc == if failed || j == 5 then Switching(snap, extra, i + 1, 0, admin)
                        else Switching(snap, extra, i, j, admin)
        invariant forall n :: n in live && n != svc.name ==> live[n] == old(live)[n]
        invariant !failed ==> Underway(live, svc, cmds, j, c)
        invariant reliable && svc.name in old(live) ==> !failed
      {
        ghost var was := live;
        admin, failed := SwitchOne(snap, extra, i, j, admin);
        if !failed {
          UnderwayStep(was, live, svc, cmds, j, c);
        }
        j := j + 1;
      }
      if !failed {
        AllSwitched(live, c, svc, snap.pano, extra);
      }
    }

    /** Enable. It gets the services the system lists, and what queries would answer. */
    method Enable(supported: bool, listed: Option<seq<string>>, pano: Endpoint, extra: seq<string>,
          queried: set<string>)
      returns (err: bool)
      requires Valid() && pc.Idle?
      requires listed.Some? ==> NoRepeats(listed.value) && forall n :: n in listed.value ==> n in live
      modifies this
      ensures Valid() && pc.Idle? && old(acts) <= acts
      ensures pano.host == "" || !(0 < pano.port <= 65535) || !supported ==> err && Current() == old(Current())
      ensures !err ==> file.Some? && file.value.pano == pano
                       && forall k :: 0 <= k < |file.value.services| ==>
                            Pointed(live, file.value.services[k], pano, extra)
      ensures !err && old(file).None? ==>
                && listed.Some? && Names(file.value.services) == listed.value
                && forall n :: n in listed.value ==> Switched(live, n, old(live)[n].bypass, pano, extra)
      ensures !err && old(file).Some? ==> file.value.services == old(file).value.services
      ensures !err ==> OthersKept(old(live), live, Names(file.value.services))
      ensures reliable && supported && pano.host != "" && 0 < pano.port <= 65535 ==>
                (CanEnable(old(file), old(live), listed) ==> !err)
    {
      if pano.host == "" || pano.port <= 0 || pano.port > 65535 || !supported { return true; }
      var prepared := Prepare(listed, pano, queried);
      if prepared.None? { return true; }
      var snap := prepared.value;
      Recorded(listed, pano, queried);
      ghost var was := live;
      Did(StartEnable(if listed.Some? then listed.value else [], pano, extra, queried), Current());
      err := Commit(snap, extra);
      if !err && old(file).None? {
        AllListedSwitched(was, live, listed.value, pano, extra);
      }
    }

    /** What is recorded: the services listed as they are, or what was recorded before. */
    lemma {:induction false} Recorded(listed: Option<seq<string>>, pano: Endpoint, queried: set<string>)
      requires Valid() && (listed.Some? ==> forall n :: n in listed.value ==> n in live)
      ensures file.Some? ==>
                Started(Current(), if listed.Some? then listed.value else [], pano, queried).services
                == file.value.services
      ensures file.None? && listed.Some? ==>
                var services := Started(Current(), listed.value, pano, queried).services;
                services == Capture(live, listed.value) && Names(services) == listed.value && AllThere(services, live)
    {
      TraceKeeps(before, acts);
      if file.Some? {
        BackfilledGood(live, before, file.value.services, queried);
      } else if listed.Some? {
        CaptureGood(live, before, listed.value);
        forall k | 0 <= k < |Capture(live, listed.value)|
          ensures Capture(live, listed.value)[k].name in live
        {
          CaptureLength(live, listed.value);
          CaptureAt(live, listed.value, k);
        }
      }
    }

    /** Makes the snapshot durable before the first change. */
    method Commit(snap: Snapshot, extra: seq<string>) returns (err: bool)
      requires Valid() && pc == Writing(snap, extra)
      modifies this
      ensures Valid() && pc.Idle? && old(acts) <= acts
      ensures !err ==> file.Some? && file.value.pano == snap.pano && file.value.services == snap.services
                       && forall k :: 0 <= k < |snap.services| ==> Pointed(live, snap.services[k], snap.pano, extra)
      ensures OthersKept(old(live), live, Names(snap.services))
      ensures reliable && AllThere(snap.services, old(live)) ==> !err
    {
      ghost var was := Current();
      var ok := WriteSnapshot(snap);
      Did(Write(ok), was);
      if !ok { return true; }
      var usedAdmin;
      usedAdmin, err := SwitchAll(snap, extra);
      was := Current();
      var rewritten := true;
      if usedAdmin && !snap.usedAdmin {
        rewritten := WriteSnapshot(snap.(usedAdmin := true));
      }
      Did(Finish(rewritten), was);
      err := err || !rewritten;
    }

    method SwitchAll(snap: Snapshot, extra: seq<string>) returns (usedAdmin: bool, err: bool)
      requires Valid() && pc == Switching(snap, extra, 0, 0, snap.usedAdmin) && file == Some(snap)
      modifies this
      ensures Valid() && old(acts) <= acts && pc == Switching(snap, extra, |snap.services|, 0, usedAdmin)
      ensures file == old(file)
      ensures !err ==> forall k :: 0 <= k < |snap.services| ==> Pointed(live, snap.services[k], snap.pano, extra)
      ensures OthersKept(old(live), live, Names(snap.services))
      ensures reliable && AllThere(snap.services, old(live)) ==> !err
    {
      usedAdmin, err := snap.usedAdmin, false;
      TraceKeeps(before, acts);
      for i := 0 to |snap.services|
        invariant Valid() && old(acts) <= acts && file == old(file) && pc == Switching(snap, extra, i, 0, usedAdmin)
        invariant !err ==> AllPointed(live, snap.services, i, snap.pano, extra)
        invariant OthersKept(old(live), live, Names(snap.services))
        invariant reliable && AllThere(snap.services, old(live)) ==> !err
      {
        var failed;
        NameOf(snap.services, i);
        ghost var was := live;
        usedAdmin, failed := SwitchService(snap, extra, i, usedAdmin);
        OneMoreKept(old(live), was, live, Names(snap.services), snap.services[i].name);
        if !err && !failed { OneMorePointed(was, live, snap.services, i, snap.pano, extra); }
        err := err || failed;
      }
    }

    /** Runs the restore commands of service i. */
    method RestoreService(snap: Snapshot, i: nat, ghost failed: bool) returns (svcFailed: bool)
      requires Valid() && i < |snap.services| && pc == Restoring(snap, i, 0, false, failed)
      modifies this
      ensures Valid() && file == old(file) && old(acts) <= acts
      ensures pc == Restoring(snap, i + 1, 0, false, failed || svcFailed) && (reliable ==> !svcFailed)
    {
      var svc := snap.services[i];
      var cmds := RestoreCommands(svc);
      var j := 0;
      svcFailed := false;
      while j < |cmds|
        invariant j <= |cmds| && Valid() && file == old(file) && old(acts) <= acts && |cmds| > 0
        invariant pc == if j == |cmds| then Restoring(snap, i + 1, 0, false, failed || svcFailed)
                        else Restoring(snap, i, j, svcFailed, failed)
        invariant reliable ==> !svcFailed
      {
        var result, admin := Set(svc.name, cmds[j]);
        if result.Missing? {
          return false;
        }
        svcFailed := svcFailed || result.Failed?;
        j := j + 1;
      }
    }

    /** Disable and RestoreStale. */
    method RestoreLocked() returns (found: bool, err: bool)
      requires Valid() && pc.Idle?
      modifies this
      ensures Valid() && pc.Idle? && old(acts) <= acts && found == old(file).Some?
      ensures if err then file == old(file) else AllOriginal(Current(), before)
      ensures reliable ==> !err
    {
      if file.None? {
        CrashSafety(before, acts);
        return false, false;
      }
      var snap := file.value;
      Did(StartRestore, Current());
      var failed := false;
      for i := 0 to |snap.services|
        invariant Valid() && old(acts) <= acts && file == old(file) && pc == Restoring(snap, i, 0, false, failed)
        invariant reliable ==> !failed
      {
        var svcFailed := RestoreService(snap, i, failed);
        failed := failed || svcFailed;
      }
      ghost var was := Current();
      var removed := false;
      if !failed {
        removed := *;
        removed := removed || reliable;
        if removed { file := None; }
      }
      Did(Finish(removed), was);
      CrashSafety(before, acts);
      return true, !removed;
    }
  }

  lemma {:induction false} CaptureLength(live: Live, names: seq<string>)
    requires forall n :: n in names ==> n in live
    ensures |Capture(live, names)| == |names|
  {
    if names != [] {
      assert forall n :: n in Front(names) ==> n in names;
      CaptureLength(live, Front(names));
    }
  }

  lemma {:induction false} CaptureAt(live: Live, names: seq<string>, k: nat)
    requires k < |names| && forall n :: n in names ==> n in live
    ensures |Capture(live, names)| == |names| && Capture(live, names)[k] == CaptureService(live, names[k])
  {
    assert forall n :: n in Front(names) ==> n in names;
    assert Last(names) in names;
    CaptureLength(live, Front(names));
    if k < |names| - 1 { CaptureAt(live, Front(names), k); }
  }

  /** Every service that was captured, pointed at pano. */
  lemma {:induction false} AllListedSwitched(was: Live, live: Live, names: seq<string>, pano: Endpoint,
        extra: seq<string>)
    requires forall n :: n in names ==> n in was
    requires forall k :: 0 <= k < |Capture(was, names)| ==> Pointed(live, Capture(was, names)[k], pano, extra)
    ensures forall n :: n in names ==> Switched(live, n, was[n].bypass, pano, extra)
  {
    forall k | 0 <= k < |names|
      ensures Switched(live, names[k], was[names[k]].bypass, pano, extra)
    {
      CaptureAt(was, names, k);
      assert Pointed(live, Capture(was, names)[k], pano, extra);
    }
  }

  /** What the commands still to run make of a service is what all of them make of it. */
  predicate Underway(live: Live, svc: ServiceState, cmds: seq<Command>, j: nat, c: Config)
    requires j <= |cmds|
  {
    svc.name in live ==> ApplyAll(live[svc.name], cmds[j..]) == ApplyAll(c, cmds)
  }

  lemma {:induction false} UnderwayStep(was: Live, live: Live, svc: ServiceState, cmds: seq<Command>, j: nat, c: Config)
    requires j < |cmds| && Underway(was, svc, cmds, j, c)
    requires svc.name in live ==> svc.name in was && live[svc.name] == Apply(was[svc.name], cmds[j])
    ensures Underway(live, svc, cmds, j + 1, c)
  {
    if svc.name in live {
      ApplyNext(was[svc.name], cmds, j);
    }
  }

  lemma {:induction false} ApplyNext(c: Config, cmds: seq<Command>, j: nat)
    requires j < |cmds|
    ensures ApplyAll(c, cmds[j..]) == ApplyAll(Apply(c, cmds[j]), cmds[j + 1..])
  {
    DropTail(cmds, j);
  }

  lemma {:induction false} SwitchedConfig(c: Config, pano: Endpoint, merged: seq<string>)
    requires merged != [] && merged != [NO_BYPASS]
    ensures ApplyAll(c, EnableCommands(pano, merged))
         == Config(Setting(true, pano.host, pano.port), Setting(true, pano.host, pano.port), merged,
                   Auto(c.auto.url, false, false))
  {
    var web, secure, b := SetWeb(pano.host, pano.port), SetSecure(pano.host, pano.port), SetBypass(merged);
    var y := [SetAutoState(false), SetDiscovery(false)];
    assert EnableCommands(pano, merged) == [web, secure] + ([b] + y);
    ApplyConcat(c, [web, secure], [b] + y);
    ApplyTwo(c, web, secure);
    var d := Apply(Apply(c, web), secure);
    ApplyConcat(d, [b], y);
    ApplyOne(d, b);
    ApplyTwo(Apply(d, b), SetAutoState(false), SetDiscovery(false));
  }

  lemma {:induction false} AllSwitched(live: Live, c: Config, svc: ServiceState, pano: Endpoint, extra: seq<string>)
    requires svc.name in live ==> live[svc.name] == ApplyAll(c, EnableList(svc, pano, extra))
    ensures Pointed(live, svc, pano, extra)
  {
    MergeKeepsDefault(svc.bypass, extra);
    SwitchedConfig(c, pano, MergeBypass(svc.bypass, extra));
  }

  /** The merged list is never empty, and never reads like the marker for an empty one. */
  lemma {:induction false} MergeKeepsDefault(existing: seq<string>, extra: seq<string>)
    ensures var r := MergeBypass(existing, extra); r != [] && r != [NO_BYPASS]
  {
    assert TrimSpace("localhost") == "localhost" && DEFAULT_BYPASS[0] == "localhost";
    MergeBypassIsUnion(existing, extra, "localhost");
  }
}
