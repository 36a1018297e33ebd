/** The system proxy switch as a write-ahead protocol. Each action is one step after which the
    process may die: writing or removing the state file, or running one command. Commands may
    fail with or without having had their effect, and services may disappear. */
module SysProxyMachine {
  import opened Options
  import opened Seqs
  import opened SysProxy

  /** Where the manager stands: i and j are the next service and command. */
  datatype Pc =
    | Idle
    | Writing(snap: Snapshot, extra: seq<string>)
    | Switching(snap: Snapshot, extra: seq<string>, i: nat, j: nat, usedAdmin: bool)
    | Restoring(snap: Snapshot, i: nat, j: nat, svcFailed: bool, failed: bool)

  datatype State = State(live: Live, file: Option<Snapshot>, pc: Pc)

  /** How a command ends; one that fails may still have had its effect. */
  datatype Result = Ok | Missing | Failed(applied: bool)

  datatype Action =
    | StartEnable(names: seq<string>, pano: Endpoint, extra: seq<string>, queried: set<string>)
    | StartRestore
    | Write(ok: bool)
    | Run(result: Result, admin: bool)
    | Finish(ok: bool)
    | Crash
    | Vanish(name: string)

  // ---- Steps -------------------------------------------------------------------------

  function CaptureService(live: Live, name: string): ServiceState
    requires name in live
  {
    ServiceState(name, live[name].web, live[name].secure, live[name].bypass, Some(live[name].auto))
  }

  function Capture(live: Live, names: seq<string>): seq<ServiceState>
    requires forall n :: n in names ==> n in live
  {
    if names == [] then []
    else
      assert forall n :: n in Front(names) ==> n in names;
      Capture(live, Front(names)) + [CaptureService(live, Last(names))]
  }

  /** Old snapshots get the automatic configuration they lack, where the query for it works. */
  function Backfilled(live: Live, services: seq<ServiceState>, queried: set<string>): seq<ServiceState> {
    if services == [] then []
    else
      var svc := Last(services);
      Backfilled(live, Front(services), queried)
      + [if svc.auto.None? && svc.name in queried && svc.name in live then svc.(auto := Some(live[svc.name].auto))
         else svc]
  }

  function EnableList(svc: ServiceState, pano: Endpoint, extra: seq<string>): seq<Command> {
    EnableCommands(pano, MergeBypass(svc.bypass, extra))
  }

  /** The commands for the service whose turn it is. */
  function Commands(pc: Pc): seq<Command>
    requires (pc.Switching? || pc.Restoring?) && pc.i < |pc.snap.services|
  {
    var svc := pc.snap.services[pc.i];
    if pc.Switching? then EnableList(svc, pc.snap.pano, pc.extra) else RestoreCommands(svc)
  }

  function RunAt(live: Live, name: string, cmd: Command, result: Result): Live {
    if name in live && (result.Ok? || (result.Failed? && result.applied)) then live[name := Apply(live[name], cmd)]
    else live
  }

  /** Enabling gives up on a service at its first error. */
  function SwitchingNext(pc: Pc, result: Result, admin: bool): Pc
    requires pc.Switching? && pc.i < |pc.snap.services|
  {
    var last := !result.Ok? || pc.j + 1 >= |Commands(pc)|;
    Switching(pc.snap, pc.extra, if last then pc.i + 1 else pc.i, if last then 0 else pc.j + 1, pc.usedAdmin || admin)
  }

  /** Restoring tries all commands of a service, unless the service is gone: then whatever
      failed before does not matter any more. */
  function RestoringNext(pc: Pc, result: Result): Pc
    requires pc.Restoring? && pc.i < |pc.snap.services|
  {
    var bad := pc.svcFailed || result.Failed?;
    if result.Missing? then Restoring(pc.snap, pc.i + 1, 0, false, pc.failed)
    else if pc.j + 1 >= |Commands(pc)| then Restoring(pc.snap, pc.i + 1, 0, false, pc.failed || bad)
    else Restoring(pc.snap, pc.i, pc.j + 1, bad, pc.failed)
  }

  predicate AtCommand(pc: Pc) {
    (pc.Switching? || pc.Restoring?) && pc.i < |pc.snap.services| && pc.j < |Commands(pc)|
  }

  predicate AtEnd(pc: Pc) {
    (pc.Switching? || pc.Restoring?) && pc.i >= |pc.snap.services|
  }

  ghost predicate Enabled(s: State, a: Action) {
    match a
    case StartEnable(names, _, _, _) =>
      s.pc.Idle? && (s.file.None? ==> NoRepeats(names) && names != [] && forall n :: n in names ==> n in s.live)
    case StartRestore => s.pc.Idle? && s.file.Some?
    case Write(_) => s.pc.Writing?
    case Run(result, _) =>
      AtCommand(s.pc) && (result.Missing? ==> s.pc.snap.services[s.pc.i].name !in s.live)
    case Finish(_) => AtEnd(s.pc)
    case Crash => true
    case Vanish(_) => true
  }

  function Started(s: State, names: seq<string>, pano: Endpoint, queried: set<string>): Snapshot
    requires s.file.None? ==> forall n :: n in names ==> n in s.live
  {
    match s.file
    case None => Snapshot(pano, Capture(s.live, names), false)
    case Some(snap) => Snapshot(pano, Backfilled(s.live, snap.services, queried), snap.usedAdmin)
  }

  function Ran(s: State, result: Result, admin: bool): State
    requires AtCommand(s.pc)
  {
    var live := RunAt(s.live, s.pc.snap.services[s.pc.i].name, Commands(s.pc)[s.pc.j], result);
    State(live, s.file, if s.pc.Switching? then SwitchingNext(s.pc, result, admin) else RestoringNext(s.pc, result))
  }

  /** Enabling records that it needed administrator rights; restoring removes the file, unless
      a service could not be restored. */
  function Finished(s: State, ok: bool): State
    requires AtEnd(s.pc)
  {
    State(s.live,
          if !ok then s.file
          else if s.pc.Switching? then
            (if s.pc.usedAdmin && !s.pc.snap.usedAdmin then Some(s.pc.snap.(usedAdmin := true)) else s.file)
          else if s.pc.failed then s.file
          else None,
          Idle)
  }

  ghost function Next(s: State, a: Action): State
    requires Enabled(s, a)
  {
    match a
    case StartEnable(names, pano, extra, queried) => s.(pc := Writing(Started(s, names, pano, queried), extra))
    case StartRestore => s.(pc := Restoring(s.file.value, 0, 0, false, false))
    case Write(ok) =>
      if ok then State(s.live, Some(s.pc.snap), Switching(s.pc.snap, s.pc.extra, 0, 0, s.pc.snap.usedAdmin))
      else s.(pc := Idle)
    case Run(result, admin) => Ran(s, result, admin)
    case Finish(ok) => Finished(s, ok)
    case Crash => s.(pc := Idle)
    case Vanish(name) => s.(live := s.live - {name})
  }

  // ---- The invariant -----------------------------------------------------------------

  /** c is as the original d, or as restoring d leaves it. */
  predicate Settled(c: Config, d: Config) {
    Visible(c) == Visible(d) || Visible(c) == Restored(d)
  }

  /** The recorded state of a service is settled. */
  predicate Records(svc: ServiceState, orig: Live) {
    && svc.name in orig && svc.auto.Some?
    && svc.auto.value.url == orig[svc.name].auto.url && Settled(ConfigOf(svc), orig[svc.name])
  }

  predicate AllRecord(services: seq<ServiceState>, orig: Live) {
    services == [] || (AllRecord(Front(services), orig) && Records(Last(services), orig))
  }

  function Names(services: seq<ServiceState>): seq<string> {
    if services == [] then [] else Names(Front(services)) + [Last(services).name]
  }

  /** A service the snapshot does not cover is settled. */
  ghost predicate OthersSettled(live: Live, orig: Live, names: seq<string>) {
    forall n :: n in live && n !in names ==> n in orig && Settled(live[n], orig[n])
  }

  /** No command changes a PAC URL to another. */
  ghost predicate SameUrls(live: Live, orig: Live) {
    forall n :: n in live ==> n in orig && live[n].auto.url == orig[n].auto.url
  }

  ghost predicate Good(snap: Snapshot, live: Live, orig: Live) {
    && AllRecord(snap.services, orig) && NoRepeats(Names(snap.services))
    && OthersSettled(live, orig, Names(snap.services))
  }

  /** What running the rest of a service's commands will make of it. */
  predicate OnTheWay(live: Live, svc: ServiceState, j: nat)
    requires j <= |RestoreCommands(svc)| && svc.auto.Some?
  {
    svc.name in live ==> Visible(ApplyAll(live[svc.name], RestoreCommands(svc)[j..])) == Restored(ConfigOf(svc))
  }

  predicate Done(live: Live, svc: ServiceState)
    requires svc.auto.Some?
  {
    svc.name in live ==> Visible(live[svc.name]) == Restored(ConfigOf(svc))
  }

  /** Unless a command failed, the services passed are restored. */
  ghost predicate Passed(live: Live, services: seq<ServiceState>, i: nat)
    requires i <= |services|
  {
    forall k :: 0 <= k < i ==> services[k].auto.Some? && Done(live, services[k])
  }

  ghost predicate Progress(s: State)
    requires s.pc.Restoring?
  {
    var services := s.pc.snap.services;
    && s.file == Some(s.pc.snap) && s.pc.i <= |services|
    && (!s.pc.failed ==> Passed(s.live, services, s.pc.i))
    && (s.pc.i < |services| ==>
          && services[s.pc.i].auto.Some? && s.pc.j < |RestoreCommands(services[s.pc.i])|
          && (!s.pc.svcFailed ==> OnTheWay(s.live, services[s.pc.i], s.pc.j)))
  }

  ghost predicate FileOk(file: Option<Snapshot>, live: Live, orig: Live) {
    match file
    case None => OthersSettled(live, orig, [])
    case Some(snap) => Good(snap, live, orig)
  }

  ghost predicate PcOk(s: State, orig: Live) {
    match s.pc
    case Idle => true
    case Writing(snap, _) => Good(snap, s.live, orig)
    case Switching(snap, _, i, j, _) =>
      && s.file.Some? && s.file.value.services == snap.services
      && i <= |snap.services| && j < 5
    case Restoring(_, _, _, _, _) => Progress(s)
  }

  /** Before the file is written, everything is settled; from then on until it is removed, it
      records what was. */
  ghost predicate Inv(s: State, orig: Live) {
    SameUrls(s.live, orig) && FileOk(s.file, s.live, orig) && PcOk(s, orig)
  }
}
