/** Network settings, the commands that change them, and the snapshot that undoes them. */
module SysProxy {
  import opened Options
  import opened Seqs
  import opened Text

  datatype Setting = Setting(enabled: bool, server: string, port: int)
  datatype Auto = Auto(url: string, enabled: bool, discovery: bool)

  /** The live proxy configuration of one network service. */
  datatype Config = Config(web: Setting, secure: Setting, bypass: seq<string>, auto: Auto)

  datatype Endpoint = Endpoint(host: string, port: int)

  /** One service of a snapshot; auto is None in snapshots from before it was recorded. */
  datatype ServiceState =
    ServiceState(name: string, web: Setting, secure: Setting, bypass: seq<string>, auto: Option<Auto>)

  datatype Snapshot = Snapshot(pano: Endpoint, services: seq<ServiceState>, usedAdmin: bool)

  type Live = map<string, Config>

  datatype Command =
    | SetWeb(server: string, port: int)
    | SetWebState(on: bool)
    | SetSecure(server: string, port: int)
    | SetSecureState(on: bool)
    | SetBypass(args: seq<string>)
    | SetAutoUrl(url: string)
    | SetAutoState(on: bool)
    | SetDiscovery(on: bool)

  /** The argument that clears the bypass list. */
  const NO_BYPASS := "Empty"

  /** What a command that succeeds does. Setting a server or a PAC URL also switches it on. */
  function Apply(c: Config, cmd: Command): Config {
    match cmd
    case SetWeb(server, port) => c.(web := Setting(true, server, port))
    case SetWebState(on) => c.(web := c.web.(enabled := on))
    case SetSecure(server, port) => c.(secure := Setting(true, server, port))
    case SetSecureState(on) => c.(secure := c.secure.(enabled := on))
    case SetBypass(args) => c.(bypass := if args == [NO_BYPASS] then [] else args)
    case SetAutoUrl(url) => c.(auto := c.auto.(url := url, enabled := true))
    case SetAutoState(on) => c.(auto := c.auto.(enabled := on))
    case SetDiscovery(on) => c.(auto := c.auto.(discovery := on))
  }

  function ApplyAll(c: Config, cmds: seq<Command>): Config
    decreases |cmds|
  {
    if cmds == [] then c else ApplyAll(Apply(c, cmds[0]), cmds[1..])
  }

  /** Where the proxy must never be used. */
  const DEFAULT_BYPASS := ["localhost", "127.0.0.1", "*.local", "169.254/16"]

  function MergeInto(out: seq<string>, list: seq<string>): seq<string>
    decreases |list|
  {
    if list == [] then out
    else
      var d := TrimSpace(list[0]);
      MergeInto(if d == "" || d in out then out else out + [d], list[1..])
  }

  function MergeBypass(existing: seq<string>, extra: seq<string>): seq<string> {
    MergeInto(MergeInto(MergeInto([], existing), DEFAULT_BYPASS), extra)
  }

  predicate Listed(x: string, list: seq<string>)
    decreases |list|
  {
    list != [] && (TrimSpace(list[0]) == x || Listed(x, list[1..]))
  }

  predicate NoRepeats(out: seq<string>) {
    out == [] || (Last(out) !in Front(out) && NoRepeats(Front(out)))
  }

  lemma {:induction false} MergeIntoMeaning(out: seq<string>, list: seq<string>, x: string)
    requires "" !in out && NoRepeats(out)
    ensures var r := MergeInto(out, list);
            out <= r && "" !in r && NoRepeats(r) && (x in r <==> x in out || (x != "" && Listed(x, list)))
    decreases |list|
  {
    if list != [] {
      var d := TrimSpace(list[0]);
      if d != "" && d !in out {
        FrontLastSnoc(out, d);
        MergeIntoMeaning(out + [d], list[1..], x);
      } else {
        MergeIntoMeaning(out, list[1..], x);
      }
    }
  }

  /** The union of the three lists, without blanks or repeats. */
  lemma {:induction false} MergeBypassIsUnion(existing: seq<string>, extra: seq<string>, x: string)
    ensures var r, never := MergeBypass(existing, extra), ["localhost", "127.0.0.1", "*.local", "169.254/16"];
            && NoRepeats(r) && "" !in r
            && (x in r <==> x != "" && (Listed(x, existing) || Listed(x, never) || Listed(x, extra)))
  {
    MergeIntoMeaning([], existing, x);
    MergeIntoMeaning(MergeInto([], existing), DEFAULT_BYPASS, x);
    MergeIntoMeaning(MergeInto(MergeInto([], existing), DEFAULT_BYPASS), extra, x);
  }

  /** Where x is first listed; the length of the list if it is not. */
  function FirstListed(x: string, list: seq<string>): nat {
    if list == [] then 0
    else if FirstListed(x, Front(list)) < |list| - 1 then FirstListed(x, Front(list))
    else if TrimSpace(Last(list)) == x then |list| - 1
    else |list|
  }

  /** out is listed, in this order. */
  ghost predicate InListedOrder(out: seq<string>, list: seq<string>) {
    && (forall k :: 0 <= k < |out| ==> FirstListed(out[k], list) < |list|)
    && (forall j, k :: 0 <= j < k < |out| ==> FirstListed(out[j], list) < FirstListed(out[k], list))
  }

  lemma {:induction false} FirstOfSnoc(x: string, list: seq<string>, y: string)
    ensures FirstListed(x, list) <= |list|
    ensures FirstListed(x, list + [y])
         == if FirstListed(x, list) < |list| then FirstListed(x, list)
            else if TrimSpace(y) == x then |list| else |list| + 1
  {
    FrontLastSnoc(list, y);
    if list != [] {
      FirstOfSnoc(x, Front(list), Last(list));
      FrontLast(list);
    }
  }

  lemma {:induction false} StillListed(out: seq<string>, list: seq<string>, y: string)
    requires InListedOrder(out, list)
    ensures InListedOrder(out, list + [y])
  {
    forall k | 0 <= k < |out|
      ensures FirstListed(out[k], list + [y]) == FirstListed(out[k], list) < |list|
    {
      FirstOfSnoc(out[k], list, y);
    }
  }

  lemma {:induction false} NewlyListed(out: seq<string>, list: seq<string>, y: string)
    requires InListedOrder(out, list) && FirstListed(TrimSpace(y), list) == |list|
    ensures InListedOrder(out + [TrimSpace(y)], list + [y])
  {
    FirstOfSnoc(TrimSpace(y), list, y);
    forall k | 0 <= k < |out|
      ensures FirstListed(out[k], list + [y]) == FirstListed(out[k], list) < |list|
    {
      FirstOfSnoc(out[k], list, y);
    }
  }

  lemma {:induction false} StillIn(list: seq<string>, y: string, out: seq<string>, longer: seq<string>)
    requires AllIn(list, out) && out <= longer && (TrimSpace(y) == "" || TrimSpace(y) in longer)
    ensures AllIn(list + [y], longer)
  {
    forall x | x != "" && FirstListed(x, list + [y]) < |list + [y]|
      ensures x in longer
    {
      FirstOfSnoc(x, list, y);
    }
  }

  lemma {:induction false} OneMoreListed(out: seq<string>, list: seq<string>, y: string)
    requires InListedOrder(out, list) && AllIn(list, out)
    ensures var d := TrimSpace(y);
            var longer := if d == "" || d in out then out else out + [d];
            InListedOrder(longer, list + [y]) && AllIn(list + [y], longer)
  {
    var d := TrimSpace(y);
    FirstOfSnoc(d, list, y);
    if d == "" || d in out {
      StillListed(out, list, y);
      StillIn(list, y, out, out);
    } else {
      NewlyListed(out, list, y);
      StillIn(list, y, out, out + [d]);
    }
  }

  /** What is listed and no blank is in out. */
  ghost predicate AllIn(list: seq<string>, out: seq<string>) {
    forall x :: x != "" && FirstListed(x, list) < |list| ==> x in out
  }

  lemma {:induction false} MergedInOrder(out: seq<string>, done: seq<string>, list: seq<string>)
    requires InListedOrder(out, done) && AllIn(done, out)
    ensures InListedOrder(MergeInto(out, list), done + list) && AllIn(done + list, MergeInto(out, list))
    decreases |list|
  {
    if list == [] {
      EmptyUnit(done);
    } else {
      var d := TrimSpace(list[0]);
      OneMoreListed(out, done, list[0]);
      MergedInOrder(if d == "" || d in out then out else out + [d], done + [list[0]], list[1..]);
      ConsTail(list);
      Assoc(done, [list[0]], list[1..]);
    }
  }

  /** The merged list keeps the order in which the three lists, one after the other, first name
      its entries. */
  lemma {:induction false} MergeBypassInOrder(existing: seq<string>, extra: seq<string>)
    ensures InListedOrder(MergeBypass(existing, extra),
                          existing + ["localhost", "127.0.0.1", "*.local", "169.254/16"] + extra)
  {
    EmptyUnit(existing);
    MergedInOrder([], [], existing);
    MergedInOrder(MergeInto([], existing), existing, DEFAULT_BYPASS);
    MergedInOrder(MergeInto(MergeInto([], existing), DEFAULT_BYPASS), existing + DEFAULT_BYPASS, extra);
  }

  function BypassArgs(list: seq<string>): seq<string> {
    if list == [] then [NO_BYPASS] else list
  }

  /** Points a service at pano and takes automatic configuration out of the way. */
  function EnableCommands(pano: Endpoint, bypass: seq<string>): seq<Command> {
    [SetWeb(pano.host, pano.port), SetSecure(pano.host, pano.port), SetBypass(BypassArgs(bypass)),
     SetAutoState(false), SetDiscovery(false)]
  }

  function WebCommands(s: Setting): seq<Command> {
    if s.enabled then [SetWeb(s.server, s.port), SetWebState(true)] else [SetWebState(false)]
  }

  function SecureCommands(s: Setting): seq<Command> {
    if s.enabled then [SetSecure(s.server, s.port), SetSecureState(true)] else [SetSecureState(false)]
  }

  function AutoCommands(auto: Option<Auto>): seq<Command> {
    match auto
    case None => []
    case Some(a) =>
      (if a.url != "" then [SetAutoUrl(a.url)] else [])
      + [SetAutoState(a.enabled && a.url != ""), SetDiscovery(a.discovery)]
  }

  function RestoreCommands(svc: ServiceState): seq<Command> {
    WebCommands(svc.web) + SecureCommands(svc.secure) + [SetBypass(BypassArgs(svc.bypass))] + AutoCommands(svc.auto)
  }

  // ---- What a restore brings back ----------------------------------------------------

  /** What counts of a setting: the server of a proxy that is off does not. */
  function VisibleSetting(s: Setting): Setting {
    if s.enabled then s else Setting(false, "", 0)
  }

  function Visible(c: Config): Config {
    c.(web := VisibleSetting(c.web), secure := VisibleSetting(c.secure))
  }

  predicate Same(c: Config, d: Config) {
    Visible(c) == Visible(d)
  }

  /** What a full restore of c leaves. */
  function Restored(c: Config): Config {
    Visible(c).(bypass := if c.bypass == [NO_BYPASS] then [] else c.bypass,
                auto := c.auto.(enabled := c.auto.enabled && c.auto.url != ""))
  }

  /** The configurations a restore can bring back: not a PAC that is on without a URL, and not
      a bypass list that reads like the marker for an empty one. */
  predicate Restorable(c: Config) {
    !(c.auto.enabled && c.auto.url == "") && c.bypass != [NO_BYPASS]
  }

  lemma {:induction false} RestoredIsSame(c: Config)
    ensures Restored(c) == Visible(c) <==> Restorable(c)
    ensures Restored(Restored(c)) == Restored(c) && Restored(Visible(c)) == Restored(c)
    ensures Visible(Restored(c)) == Restored(c) && Visible(Visible(c)) == Visible(c)
  {
  }

  /** The configuration a snapshot recorded. */
  function ConfigOf(svc: ServiceState): Config
    requires svc.auto.Some?
  {
    Config(svc.web, svc.secure, svc.bypass, svc.auto.value)
  }

  lemma {:induction false} ApplyConcat(c: Config, x: seq<Command>, y: seq<Command>)
    ensures ApplyAll(c, x + y) == ApplyAll(ApplyAll(c, x), y)
    decreases |x|
  {
    if x == [] {
      EmptyUnit(y);
    } else {
      TailOfConcat(x, y);
      ApplyConcat(Apply(c, x[0]), x[1..], y);
    }
  }

  lemma {:induction false} ApplyOne(c: Config, a: Command)
    ensures ApplyAll(c, [a]) == Apply(c, a)
  {
    assert [a][1..] == [];
  }

  lemma {:induction false} ApplyTwo(c: Config, a: Command, b: Command)
    ensures ApplyAll(c, [a, b]) == Apply(Apply(c, a), b)
  {
    assert [a, b][1..] == [b];
    ApplyOne(Apply(c, a), b);
  }

  lemma {:induction false} WebRestored(c: Config, s: Setting)
    ensures var d := ApplyAll(c, WebCommands(s)); d == c.(web := d.web) && VisibleSetting(d.web) == VisibleSetting(s)
  {
    if s.enabled {
      ApplyTwo(c, SetWeb(s.server, s.port), SetWebState(true));
    } else {
      ApplyOne(c, SetWebState(false));
    }
  }

  lemma {:induction false} SecureRestored(c: Config, s: Setting)
    ensures var d := ApplyAll(c, SecureCommands(s));
            d == c.(secure := d.secure) && VisibleSetting(d.secure) == VisibleSetting(s)
  {
    if s.enabled {
      ApplyTwo(c, SetSecure(s.server, s.port), SetSecureState(true));
    } else {
      ApplyOne(c, SetSecureState(false));
    }
  }

  lemma {:induction false} AutoRestored(c: Config, a: Auto)
    requires c.auto.url == a.url
    ensures ApplyAll(c, AutoCommands(Some(a))) == c.(auto := a.(enabled := a.enabled && a.url != ""))
  {
    var on, d := SetAutoState(a.enabled && a.url != ""), SetDiscovery(a.discovery);
    if a.url != "" {
      ApplyConcat(c, [SetAutoUrl(a.url)], [on, d]);
      ApplyOne(c, SetAutoUrl(a.url));
      ApplyTwo(Apply(c, SetAutoUrl(a.url)), on, d);
    } else {
      EmptyUnit([on, d]);
      ApplyTwo(c, on, d);
    }
  }

  /** Whatever the live configuration has become, running all the commands of a snapshot
      brings back what it recorded. */
  lemma {:induction false} AllRestored(c: Config, svc: ServiceState)
    requires svc.auto.Some? && c.auto.url == svc.auto.value.url
    ensures Visible(ApplyAll(c, RestoreCommands(svc))) == Restored(ConfigOf(svc))
  {
    var web, secure, bypass := WebCommands(svc.web), SecureCommands(svc.secure), SetBypass(BypassArgs(svc.bypass));
    ApplyConcat(c, web + secure + [bypass], AutoCommands(svc.auto));
    ApplyConcat(c, web + secure, [bypass]);
    ApplyConcat(c, web, secure);
    var c1 := ApplyAll(c, web);
    var c2 := ApplyAll(c1, secure);
    WebRestored(c, svc.web);
    SecureRestored(c1, svc.secure);
    ApplyOne(c2, bypass);
    AutoRestored(Apply(c2, bypass), svc.auto.value);
  }

  /** A full restore of a snapshot is exact if and only if the configuration is restorable. */
  lemma {:induction false} RestoreIsExact(c: Config, svc: ServiceState)
    requires svc.auto.Some? && c.auto.url == svc.auto.value.url
    ensures Same(ApplyAll(c, RestoreCommands(svc)), ConfigOf(svc)) <==> Restorable(ConfigOf(svc))
  {
    AllRestored(c, svc);
    RestoredIsSame(ConfigOf(svc));
  }

  /** A snapshot from before automatic configuration was recorded leaves that as it is, and
      brings back the rest. */
  lemma {:induction false} OldSnapshotRestored(c: Config, svc: ServiceState)
    requires svc.auto.None?
    ensures var d := ApplyAll(c, RestoreCommands(svc));
            && d.auto == c.auto && VisibleSetting(d.web) == VisibleSetting(svc.web)
            && VisibleSetting(d.secure) == VisibleSetting(svc.secure)
            && d.bypass == if svc.bypass == ["Empty"] then [] else svc.bypass
  {
    var web, secure, bypass := WebCommands(svc.web), SecureCommands(svc.secure), SetBypass(BypassArgs(svc.bypass));
    EmptyUnit(web + secure + [bypass]);
    ApplyConcat(c, web + secure, [bypass]);
    ApplyConcat(c, web, secure);
    var c1 := ApplyAll(c, web);
    WebRestored(c, svc.web);
    SecureRestored(c1, svc.secure);
    ApplyOne(ApplyAll(c1, secure), bypass);
  }
}
