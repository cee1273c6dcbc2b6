/** The logger registry of bin/logger.js: a name-to-logger map whose loggers
    carry an optional console and an optional file transport, each with its
    own level; level queries and updates; the memoising `get`; `configure`. */
module Logging {
  import opened Common
  import opened History

  /** The levels of a logger's transports; None where the transport does not
      exist. This is also the shape of what `getLevels(name)` returns. */
  datatype Transports = Transports(console: Option<string>, file: Option<string>)

  const NoTransports: Transports := Transports(None, None)

  datatype Kind = Console | File

  /** The key under which winston lists a transport of that kind. */
  function KindName(k: Kind): string
  {
    match k
    case Console => "console"
    case File => "file"
  }

  function LevelOf(t: Transports, k: Kind): Option<string>
  {
    match k
    case Console => t.console
    case File => t.file
  }

  /** JavaScript truthiness of an optional string: present and not empty. */
  predicate Truthy(o: Option<string>)
  {
    o.Some? && o.value != ""
  }

  /** The levels `isDebug` looks for. */
  predicate IsVerboseLevel(level: string)
  {
    level == "debug" || level == "all"
  }

  /** Some existing transport of t is at a verbose level. */
  predicate Verbose(t: Transports)
  {
    (t.console.Some? && IsVerboseLevel(t.console.value)) ||
    (t.file.Some? && IsVerboseLevel(t.file.value))
  }

  /** `Object.keys` of a levels record: the transports that exist, console
      first, because that is the order the record's fields are assigned. */
  function Keys(t: Transports): (r: seq<Kind>)
    ensures forall k :: k in r <==> LevelOf(t, k).Some?
    ensures |r| <= 2 && (t.console.Some? ==> |r| > 0 && r[0] == Console)
  {
    (if t.console.Some? then [Console] else []) + (if t.file.Some? then [File] else [])
  }

  // ---------------------------------------------------------------------
  // Settings (the object handed to `configure`)

  /** Options of an output; only the level the created sink starts at is
      modelled. */
  datatype TransportOptions = TransportOptions(level: string)
  datatype FileOptions = FileOptions(level: string, filename: Option<string>, rotation: bool)
  datatype Outputs = Outputs(console: Option<TransportOptions>, file: Option<FileOptions>)
  /** `settings.levels[name]`: per-logger initial level overrides. */
  datatype LevelOverride = LevelOverride(console: Option<string>, file: Option<string>)
  /** `bufferSize` 0 stands for an absent (falsy) option. */
  datatype Settings = Settings(outputs: Option<Outputs>, levels: map<string, LevelOverride>, bufferSize: nat)

  function OverrideFor(s: Settings, name: string): LevelOverride
  {
    if name in s.levels then s.levels[name] else LevelOverride(None, None)
  }

  predicate HasOutputs(settings: Option<Settings>)
  {
    settings.Some? && settings.value.outputs.Some?
  }

  /** Level a configured output of kind k starts at; None if not configured. */
  function OutputLevel(o: Outputs, k: Kind): Option<string>
  {
    match k
    case Console => if o.console.Some? then Some(o.console.value.level) else None
    case File => if o.file.Some? then Some(o.file.value.level) else None
  }

  function OverrideLevel(ov: LevelOverride, k: Kind): Option<string>
  {
    match k
    case Console => ov.console
    case File => ov.file
  }

  /** The transports a new logger gets (bin/logger.js:135-149), with the file
      override applied to the file transport as evidently intended. */
  function InitialTransports(settings: Option<Settings>, name: string): (r: Transports)
    ensures !HasOutputs(settings) ==> r == NoTransports
    ensures HasOutputs(settings) ==> forall k ::
      var configured := OutputLevel(settings.value.outputs.value, k);
      var ov := OverrideLevel(OverrideFor(settings.value, name), k);
      LevelOf(r, k) == (if configured.None? then None else if Truthy(ov) then ov else configured)
  {
    if !HasOutputs(settings) then NoTransports
    else
      var out := settings.value.outputs.value;
      var ov := OverrideFor(settings.value, name);
      var console := if out.console.None? then None
        else if Truthy(ov.console) then ov.console else Some(out.console.value.level);
      var file := if out.file.None? then None
        else if Truthy(ov.file) then ov.file else Some(out.file.value.level);
      Transports(console, file)
  }

  /** The same steps as written: the file override is assigned to
      `transports.console`, and when the logger has no console transport that
      assignment throws a TypeError (None). */
  function InitialTransportsAsWritten(settings: Option<Settings>, name: string): (r: Option<Transports>)
    ensures !HasOutputs(settings) ==> r == Some(NoTransports)
    ensures HasOutputs(settings) ==>
      var out := settings.value.outputs.value;
      (r.None? <==> out.console.None? && out.file.Some? && Truthy(OverrideFor(settings.value, name).file)) &&
      (r.Some? ==> LevelOf(r.value, File) == OutputLevel(out, File) &&
                   (LevelOf(r.value, Console).Some? <==> out.console.Some?))
  {
    if !HasOutputs(settings) then Some(NoTransports)
    else
      var out := settings.value.outputs.value;
      var ov := OverrideFor(settings.value, name);
      var withConsole := if out.console.None? then NoTransports
        else if Truthy(ov.console) then NoTransports.(console := ov.console)
        else NoTransports.(console := Some(out.console.value.level));
      if out.file.None? then Some(withConsole)
      else
        var withFile := withConsole.(file := Some(out.file.value.level));
        if !Truthy(ov.file) then Some(withFile)
        else if withFile.console.None? then None
        else Some(withFile.(console := ov.file))
  }

  /** Without a file override the code as written and the corrected version
      agree. */
  lemma AsWrittenAgreesWithoutFileOverride(settings: Option<Settings>, name: string)
    requires HasOutputs(settings) ==> !Truthy(OverrideFor(settings.value, name).file)
    ensures InitialTransportsAsWritten(settings, name) == Some(InitialTransports(settings, name))
  {
  }

  /** With both outputs and a file override, the code as written puts the
      file override on the console transport and leaves the file transport at
      its configured level; the corrected version sets the file transport. */
  lemma AsWrittenFileOverrideHitsConsole(settings: Option<Settings>, name: string)
    requires HasOutputs(settings)
    requires settings.value.outputs.value.console.Some? && settings.value.outputs.value.file.Some?
    requires Truthy(OverrideFor(settings.value, name).file)
    ensures var ov := OverrideFor(settings.value, name);
      var fileLevel := settings.value.outputs.value.file.value.level;
      InitialTransportsAsWritten(settings, name) == Some(Transports(ov.file, Some(fileLevel))) &&
      InitialTransports(settings, name).file == ov.file
  {
  }

  /** With a file output, no console output and a file override, the code as
      written throws (it dereferences the missing console transport). */
  lemma AsWrittenFileOverrideWithoutConsoleThrows(settings: Option<Settings>, name: string)
    requires HasOutputs(settings)
    requires settings.value.outputs.value.console.None? && settings.value.outputs.value.file.Some?
    requires Truthy(OverrideFor(settings.value, name).file)
    ensures InitialTransportsAsWritten(settings, name).None?
    ensures InitialTransports(settings, name) == Transports(None, OverrideFor(settings.value, name).file)
  {
  }

  /** The name `get` files a logger under: a falsy name becomes "default". */
  function KeyOf(name: Option<string>): (r: string)
    ensures r != ""
    ensures Truthy(name) ==> r == name.value
    ensures !Truthy(name) ==> r == "default"
  {
    if Truthy(name) then name.value else "default"
  }

  /** The file name an output writes to: the configured one or "app.log",
      prefixed by the application root unless it already starts with '/'
      (path normalisation is not modelled). */
  function ResolveFilename(root: string, filename: Option<string>): (r: string)
    ensures |r| > 0
    ensures |root| > 0 && root[0] == '/' ==> r[0] == '/'
    ensures Truthy(filename) && filename.value[0] == '/' ==> r == filename.value
    ensures !(Truthy(filename) && filename.value[0] == '/') ==>
      r == root + "/" + (if Truthy(filename) then filename.value else "app.log")
  {
    var f := if Truthy(filename) then filename.value else "app.log";
    if f[0] == '/' then f else root + "/" + f
  }

  /** The files for which creating a logger starts a daily rotation chain. */
  function RotationsStarted(settings: Option<Settings>, root: string): (r: seq<string>)
    ensures |r| <= 1
    ensures |r| == 1 <==> (HasOutputs(settings) && settings.value.outputs.value.file.Some? &&
                           settings.value.outputs.value.file.value.rotation)
    ensures |r| == 1 ==> r[0] == ResolveFilename(root, settings.value.outputs.value.file.value.filename)
  {
    if HasOutputs(settings) && settings.value.outputs.value.file.Some?
      && settings.value.outputs.value.file.value.rotation
    then [ResolveFilename(root, settings.value.outputs.value.file.value.filename)]
    else []
  }

  // ---------------------------------------------------------------------
  // setLevels: the argument-count overload as a tagged selector

  /** The three arities of `setLevels`; an absent argument is None. */
  datatype SetLevelsCall =
    | Call1(level: string)
    | Call2(transport: Option<string>, level: string)
    | Call3(name: Option<string>, transport: Option<string>, level: string)

  /** Which transports of which loggers a call targets. */
  datatype Selector =
    | All
    | ByTransport(transport: string)
    | ByName(name: string)
    | ByNameAndTransport(name: string, transport: string)

  function SelectorFrom(name: Option<string>, transport: Option<string>): Selector
  {
    match (name, transport)
    case (None, None) => All
    case (None, Some(t)) => ByTransport(t)
    case (Some(n), None) => ByName(n)
    case (Some(n), Some(t)) => ByNameAndTransport(n, t)
  }

  /** bin/logger.js:96-101: with two arguments the first is the transport,
      with one it is the level; the others are undefined. */
  function CallSelector(c: SetLevelsCall): (sel: Selector)
    ensures NameOf(sel) == (if c.Call3? then c.name else None)
    ensures TransportOf(sel) == (if c.Call1? then None else c.transport)
  {
    match c
    case Call1(_) => SelectorFrom(None, None)
    case Call2(t, _) => SelectorFrom(None, t)
    case Call3(n, t, _) => SelectorFrom(n, t)
  }

  function NameOf(sel: Selector): Option<string>
  {
    match sel
    case ByName(n) => Some(n)
    case ByNameAndTransport(n, _) => Some(n)
    case _ => None
  }

  function TransportOf(sel: Selector): Option<string>
  {
    match sel
    case ByTransport(t) => Some(t)
    case ByNameAndTransport(_, t) => Some(t)
    case _ => None
  }

  predicate Selects(sel: Selector, name: string)
  {
    NameOf(sel).None? || NameOf(sel).value == name
  }

  /** The per-logger step of setLevels (bin/logger.js:108-113): one named
      transport, or both when none is named; a transport that does not exist
      is left absent. */
  function SetTransportLevel(t: Transports, transport: Option<string>, level: string): (r: Transports)
    ensures forall k :: (LevelOf(r, k).Some? <==> LevelOf(t, k).Some?)
    ensures forall k ::
      LevelOf(r, k) == if LevelOf(t, k).Some? && (transport.None? || transport.value == KindName(k))
                       then Some(level) else LevelOf(t, k)
  {
    match transport
    case None =>
      Transports(if t.console.Some? then Some(level) else None,
                 if t.file.Some? then Some(level) else None)
    case Some(x) =>
      if x == KindName(Console) && t.console.Some? then t.(console := Some(level))
      else if x == KindName(File) && t.file.Some? then t.(file := Some(level))
      else t
  }

  /** The effect of a successful setLevels on the map from logger name to
      transport levels. */
  function ApplyLevels(m: map<string, Transports>, sel: Selector, level: string): (r: map<string, Transports>)
    ensures r.Keys == m.Keys
    ensures forall n | n in m && !Selects(sel, n) :: r[n] == m[n]
  {
    map n | n in m :: if Selects(sel, n) then SetTransportLevel(m[n], TransportOf(sel), level) else m[n]
  }

  /** Reference statement: transport k of logger n is touched by sel. */
  predicate Touches(sel: Selector, name: string, k: Kind)
  {
    Selects(sel, name) && (TransportOf(sel).None? || TransportOf(sel).value == KindName(k))
  }

  /** Exactly the selected, existing transports take the new level; no
      transport is created or removed and no other level changes. */
  lemma ApplyLevelsExact(m: map<string, Transports>, sel: Selector, level: string, n: string, k: Kind)
    requires n in m
    ensures var r := ApplyLevels(m, sel, level);
      r.Keys == m.Keys &&
      (LevelOf(r[n], k).Some? <==> LevelOf(m[n], k).Some?) &&
      LevelOf(r[n], k) == (if Touches(sel, n, k) && LevelOf(m[n], k).Some? then Some(level) else LevelOf(m[n], k))
  {
    var r := ApplyLevels(m, sel, level);
    assert r[n] == if Selects(sel, n) then SetTransportLevel(m[n], TransportOf(sel), level) else m[n];
  }

  /** The four call forms, stated for an existing logger n and transport k. */
  lemma SetLevelsCallForms(m: map<string, Transports>, c: SetLevelsCall, n: string, k: Kind)
    requires n in m
    ensures var r := ApplyLevels(m, CallSelector(c), c.level);
      var was := LevelOf(m[n], k);
      var set' := if was.Some? then Some(c.level) else None;
      (c.Call1? ==> LevelOf(r[n], k) == set') &&
      (c.Call2? && c.transport.None? ==> LevelOf(r[n], k) == set') &&
      (c.Call2? && c.transport.Some? ==>
        LevelOf(r[n], k) == if c.transport.value == KindName(k) then set' else was) &&
      (c.Call3? && c.name == Some(n) && c.transport.None? ==> LevelOf(r[n], k) == set') &&
      (c.Call3? && c.name == Some(n) && c.transport.Some? ==>
        LevelOf(r[n], k) == if c.transport.value == KindName(k) then set' else was) &&
      (c.Call3? && c.name.Some? && c.name != Some(n) ==> LevelOf(r[n], k) == was)
  {
    ApplyLevelsExact(m, CallSelector(c), c.level, n, k);
  }

  /** Setting every transport to "debug" makes exactly the loggers that have
      a transport verbose. */
  lemma SetAllDebugMakesVerbose(m: map<string, Transports>, n: string)
    requires n in m
    ensures Verbose(ApplyLevels(m, All, "debug")[n]) <==> m[n] != NoTransports
  {
  }

  // ---------------------------------------------------------------------
  // The Error→message normalisation of the installed `log` wrapper

  /** A log argument: an Error object (only its message matters) or any
      other value. */
  datatype Arg = Plain(text: string) | ErrorValue(message: string)

  function Normalized(a: Arg): (r: Arg)
    ensures r.Plain?
    ensures a.Plain? ==> r == a
    ensures a.ErrorValue? ==> r.text == a.message
  {
    match a
    case ErrorValue(m) => Plain(m)
    case Plain(_) => a
  }

  /** bin/logger.js:152-157: every Error argument is replaced, in place, by
      its message before the call is forwarded. */
  method NormalizeErrors(args: array<Arg>)
    modifies args
    ensures forall i | 0 <= i < args.Length :: args[i] == Normalized(old(args[i]))
  {
    var index := 0;
    while index < args.Length
      invariant 0 <= index <= args.Length
      invariant forall i | 0 <= i < index :: args[i] == Normalized(old(args[i]))
      invariant forall i | index <= i < args.Length :: args[i] == old(args[i])
    {
      if args[index].ErrorValue? {
        args[index] := Plain(args[index].message);
      }
      index := index + 1;
    }
  }

  // ---------------------------------------------------------------------
  // The loggers and the module state

  /** The `lgs.forEach` loop of setLevels: each listed logger in turn gets
      SetTransportLevel applied to its transports. */
  method SetEach(lgs: seq<Logger>, transport: Option<string>, level: string)
    requires forall a, b | 0 <= a < b < |lgs| :: lgs[a] != lgs[b]
    modifies set l | l in lgs
    ensures forall k | 0 <= k < |lgs| ::
      lgs[k].transports == SetTransportLevel(old(lgs[k].transports), transport, level)
    ensures forall k | 0 <= k < |lgs| :: lgs[k].wrapped == old(lgs[k].wrapped)
  {
    var j := 0;
    while j < |lgs|
      invariant 0 <= j <= |lgs|
      invariant forall k | 0 <= k < |lgs| ::
        lgs[k].transports == (if k < j then SetTransportLevel(old(lgs[k].transports), transport, level)
                              else old(lgs[k].transports))
      invariant forall k | 0 <= k < |lgs| :: lgs[k].wrapped == old(lgs[k].wrapped)
    {
      var l := lgs[j];
      l.transports := SetTransportLevel(l.transports, transport, level);
      j := j + 1;
    }
  }

  /** A winston logger as far as this module touches it: its label, the
      levels of its transports, and whether the `log` wrapper and `isDebug`
      were installed. */
  class Logger {
    const name: string
    var transports: Transports
    var wrapped: bool

    constructor (name: string)
      ensures this.name == name && transports == NoTransports && !wrapped
    {
      this.name := name;
      transports := NoTransports;
      wrapped := false;
    }
  }

  datatype LevelsResult = One(levels: Transports) | Each(byName: map<string, Transports>)

  /** The module-level state of bin/logger.js: the shared stream, the
      settings, the `loggers` map (with its keys in the order they were added,
      which is the order `Object.keys` yields for names that are not
      integer-like) and the files whose rotation was started.
      `root` stands for the application directory. */
  class LoggerFactory {
    const root: string
    const stream: Stream
    var settings: Option<Settings>
    var loggers: map<string, Logger>
    var names: seq<string>
    var rotating: seq<string>

    /** Every logger is filed under its own label, `names` lists the keys
        once each, and the stream listens to each logger exactly once. */
    ghost predicate Valid()
      reads this, stream, stream.cbuffer
    {
      stream.Valid() &&
      (forall n | n in loggers :: loggers[n].name == n) &&
      (forall i, j | 0 <= i < j < |names| :: names[i] != names[j]) &&
      (forall n :: n in loggers <==> n in names) &&
      stream.sources == names
    }

    constructor (root: string)
      ensures Valid() && fresh(stream) && fresh(stream.cbuffer)
      ensures this.root == root && settings == None && loggers == map[] && names == [] && rotating == []
      ensures stream.cbuffer.capacity == LoggingBufferSize && stream.cbuffer.items == [] && stream.emitted == []
    {
      this.root := root;
      stream := new Stream();
      settings := None;
      loggers := map[];
      names := [];
      rotating := [];
    }

    /** The current level of every transport of every logger. */
    function AllLevels(): (m: map<string, Transports>)
      reads this`loggers, loggers.Values
      ensures m.Keys == loggers.Keys
    {
      map n | n in loggers :: loggers[n].transports
    }

    /** getLevels(name) and getLevels() (bin/logger.js:71-93). */
    function GetLevels(name: Option<string>): (r: LevelsResult)
      reads this`loggers, loggers.Values
      ensures name.Some? ==> r.One?
      ensures name.Some? && name.value !in loggers ==> r.levels == NoTransports
      ensures name.Some? && name.value in loggers ==>
        forall k :: LevelOf(r.levels, k) == LevelOf(loggers[name.value].transports, k)
      ensures name.None? ==> r.Each? && r.byName.Keys == loggers.Keys
      ensures name.None? ==> forall n | n in loggers :: r.byName[n] == loggers[n].transports
    {
      match name
      case Some(n) => One(if n in loggers then loggers[n].transports else NoTransports)
      case None => Each(AllLevels())
    }

    /** setLevels (bin/logger.js:95-115). A call that names a logger that
        does not exist throws (the loop reads `transports` of undefined) and
        changes nothing. */
    method SetLevels(c: SetLevelsCall) returns (threw: bool)
      requires Valid()
      modifies loggers.Values
      ensures Valid()
      ensures threw <==> NameOf(CallSelector(c)).Some? && NameOf(CallSelector(c)).value !in loggers
      ensures forall n | n in loggers :: loggers[n].wrapped == old(loggers[n].wrapped)
      ensures threw ==> AllLevels() == old(AllLevels())
      ensures !threw ==> AllLevels() == ApplyLevels(old(AllLevels()), CallSelector(c), c.level)
    {
      var sel := CallSelector(c);
      if NameOf(sel).Some? && NameOf(sel).value !in loggers {
        return true;
      }
      threw := false;
      if NameOf(sel).Some? {
        SetNamed(sel, c.level);
      } else {
        SetEvery(sel, c.level);
      }
    }

    /** setLevels for a logger that exists: `lgs` is that one logger. */
    method SetNamed(sel: Selector, level: string)
      requires Valid() && NameOf(sel).Some? && NameOf(sel).value in loggers
      modifies loggers.Values
      ensures Valid()
      ensures forall n | n in loggers :: loggers[n].wrapped == old(loggers[n].wrapped)
      ensures AllLevels() == ApplyLevels(old(AllLevels()), sel, level)
    {
      var lgs := [loggers[NameOf(sel).value]];
      SetEach(lgs, TransportOf(sel), level);
      forall n | n in loggers
        ensures AllLevels()[n] == ApplyLevels(old(AllLevels()), sel, level)[n]
      {
        if Selects(sel, n) {
          assert lgs[0] == loggers[n];
        } else {
          assert loggers[n] !in lgs;
        }
      }
    }

    /** setLevels without a name: `lgs` is every logger, in key order. */
    method SetEvery(sel: Selector, level: string)
      requires Valid() && NameOf(sel).None?
      modifies loggers.Values
      ensures Valid()
      ensures forall n | n in loggers :: loggers[n].wrapped == old(loggers[n].wrapped)
      ensures AllLevels() == ApplyLevels(old(AllLevels()), sel, level)
    {
      var lgs := AllLoggers();
      assert forall a, b | 0 <= a < b < |lgs| :: lgs[a].name != lgs[b].name;
      SetEach(lgs, TransportOf(sel), level);
      forall n | n in loggers
        ensures AllLevels()[n] == ApplyLevels(old(AllLevels()), sel, level)[n]
      {
        var k :| 0 <= k < |names| && names[k] == n;
        assert lgs[k] == loggers[n];
      }
    }

    /** `Object.keys(loggers).forEach(push)`: every logger, in key order. */
    method AllLoggers() returns (lgs: seq<Logger>)
      requires Valid()
      ensures |lgs| == |names| && forall k | 0 <= k < |lgs| :: lgs[k] == loggers[names[k]]
    {
      lgs := [];
      var i := 0;
      while i < |names|
        invariant 0 <= i <= |names|
        invariant |lgs| == i && forall k | 0 <= k < i :: lgs[k] == loggers[names[k]]
      {
        lgs := lgs + [loggers[names[i]]];
        i := i + 1;
      }
    }

    /** isDebug (bin/logger.js:117-127): scans the levels of the logger's
        existing transports and returns on the first verbose one. */
    method IsDebug(name: string) returns (b: bool)
      ensures b <==> name in loggers && Verbose(loggers[name].transports)
    {
      var levels := GetLevels(Some(name)).levels;
      var keys := Keys(levels);
      var index := 0;
      while index < |keys|
        invariant 0 <= index <= |keys|
        invariant forall i | 0 <= i < index :: !IsVerboseLevel(LevelOf(levels, keys[i]).value)
      {
        var level := LevelOf(levels, keys[index]).value;
        if level == "debug" || level == "all" {
          return true;
        }
        index := index + 1;
      }
      forall k | LevelOf(levels, k).Some?
        ensures !IsVerboseLevel(LevelOf(levels, k).value)
      {
        assert k in keys;
        var i :| 0 <= i < |keys| && keys[i] == k;
      }
      assert LevelOf(levels, Console) == levels.console && LevelOf(levels, File) == levels.file;
      return false;
    }

    /** get(name) (bin/logger.js:129-163): memoised by name; a new logger is
        filed first, attached to the stream, and given transports only when
        outputs are configured. */
    method Get(name: Option<string>) returns (l: Logger)
      requires Valid()
      modifies this`loggers, this`names, this`rotating, stream`sources
      ensures Valid()
      ensures KeyOf(name) in old(loggers) ==>
        l == old(loggers[KeyOf(name)]) && loggers == old(loggers) && names == old(names) &&
        stream.sources == old(stream.sources) && rotating == old(rotating) &&
        AllLevels() == old(AllLevels())
      ensures KeyOf(name) !in old(loggers) ==>
        fresh(l) && l.name == KeyOf(name) &&
        loggers == old(loggers)[KeyOf(name) := l] && names == old(names) + [KeyOf(name)] &&
        l.transports == InitialTransports(settings, KeyOf(name)) &&
        l.wrapped == HasOutputs(settings) &&
        rotating == old(rotating) + RotationsStarted(settings, root) &&
        AllLevels() == old(AllLevels())[KeyOf(name) := l.transports]
    {
      var key := KeyOf(name);
      if key in loggers {
        return loggers[key];
      }
      l := Create(key);
    }

    /** The part of get(name) that makes a logger for a new key
        (bin/logger.js:132-149). */
    method Create(key: string) returns (l: Logger)
      requires Valid() && key !in loggers
      modifies this`loggers, this`names, this`rotating, stream`sources
      ensures Valid()
      ensures fresh(l) && l.name == key
      ensures loggers == old(loggers)[key := l] && names == old(names) + [key]
      ensures l.transports == InitialTransports(settings, key) && l.wrapped == HasOutputs(settings)
      ensures rotating == old(rotating) + RotationsStarted(settings, root)
      ensures AllLevels() == old(AllLevels())[key := l.transports]
    {
      ghost var before := AllLevels();
      l := new Logger(key);
      Register(l);
      if !HasOutputs(settings) {
        return;
      }
      AddOutputs(l);
      UpdateTwice(before, key, NoTransports, l.transports);
    }

    /** Files a new logger under its label and attaches the stream to it
        (bin/logger.js:132-134). */
    method Register(l: Logger)
      requires Valid() && l.name !in loggers
      modifies this`loggers, this`names, stream`sources
      ensures Valid()
      ensures loggers == old(loggers)[l.name := l] && names == old(names) + [l.name]
      ensures AllLevels() == old(AllLevels())[l.name := l.transports]
    {
      loggers := loggers[l.name := l];
      names := names + [l.name];
      stream.Source(l.name);
    }

    /** The console and file outputs and their level overrides
        (bin/logger.js:136-149), with the file override applied to the file
        transport; a file output with rotation starts a rotation chain. */
    method AddOutputs(l: Logger)
      requires Valid() && l.name in loggers && loggers[l.name] == l
      requires HasOutputs(settings) && l.transports == NoTransports
      modifies l, this`rotating
      ensures Valid()
      ensures l.transports == InitialTransports(settings, l.name) && l.wrapped
      ensures rotating == old(rotating) + RotationsStarted(settings, root)
      ensures AllLevels() == old(AllLevels())[l.name := l.transports]
    {
      var outputs := settings.value.outputs.value;
      var ov := OverrideFor(settings.value, l.name);
      var t := l.transports;
      if outputs.console.Some? {
        t := t.(console := Some(outputs.console.value.level));
        if Truthy(ov.console) {
          t := t.(console := ov.console);
        }
      }
      if outputs.file.Some? {
        var fo := outputs.file.value;
        t := t.(file := Some(fo.level));
        if fo.rotation {
          rotating := rotating + [ResolveFilename(root, fo.filename)];
        }
        if Truthy(ov.file) {
          t := t.(file := ov.file);
        }
      }
      Install(l, t);
    }

    /** Gives a registered logger its transports and the `log` wrapper with
        `isDebug` (bin/logger.js:151-161). */
    method Install(l: Logger, t: Transports)
      requires Valid() && l.name in loggers && loggers[l.name] == l
      modifies l
      ensures Valid() && l.transports == t && l.wrapped
      ensures AllLevels() == old(AllLevels())[l.name := t]
    {
      ghost var levels := AllLevels();
      l.transports, l.wrapped := t, true;
      forall n | n in loggers
        ensures AllLevels()[n] == levels[l.name := t][n]
      {
        if n != l.name {
          assert loggers[n].name == n;
        }
      }
    }

    /** configure(options) (bin/logger.js:165-168): later `get`s see the new
        settings; existing loggers keep their levels; a truthy bufferSize
        resizes the shared history. */
    method Configure(options: Settings)
      requires Valid()
      modifies this`settings, stream`cbuffer
      ensures Valid() && settings == Some(options)
      ensures options.bufferSize > 0 ==>
        fresh(stream.cbuffer) && stream.cbuffer.capacity == options.bufferSize &&
        stream.cbuffer.items == LastN(old(stream.cbuffer.items), options.bufferSize)
      ensures options.bufferSize == 0 ==> stream.cbuffer == old(stream.cbuffer)
      ensures AllLevels() == old(AllLevels())
    {
      settings := Some(options);
      if options.bufferSize > 0 {
        stream.SetBufferSize(options.bufferSize);
      }
    }
  }

  /** Two `get`s of the same name return the same logger, and a `configure`
      in between does not reconfigure it: its transports are still the ones
      the first `get` found or gave it (afterFirst). */
  method GetIsMemoized(f: LoggerFactory, name: Option<string>, options: Settings)
    returns (first: Logger, second: Logger, ghost afterFirst: Transports)
    requires f.Valid()
    modifies f, f.stream`sources, f.stream`cbuffer
    ensures first == second && second.transports == afterFirst
    ensures KeyOf(name) in old(f.loggers) ==> afterFirst == old(f.loggers[KeyOf(name)].transports)
    ensures KeyOf(name) !in old(f.loggers) ==> afterFirst == InitialTransports(old(f.settings), KeyOf(name))
  {
    first := f.Get(name);
    afterFirst := first.transports;
    f.Configure(options);
    second := f.Get(name);
  }
}
