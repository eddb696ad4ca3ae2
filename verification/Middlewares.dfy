/** Translating one middleware into Traefik's shape, and checking a list of
    middlewares (a host's or a template's) before it is admitted. */
module Middlewares {
  import opened Wrappers
  import opened Text
  import opened Json
  import opened Model

  datatype MwError =
    | MissingField(field: string)
    | NotAList(field: string)
    | EmptyList(field: string)
    | NotPositive(field: string)
    | UnsupportedType(kind: MwType)

  // The key under which Traefik expects a middleware of this type.
  function TypeName(kind: MwType): string {
    match kind
    case Headers => "headers"
    case RedirectScheme => "redirectScheme"
    case StripPrefix => "stripPrefix"
    case BasicAuth => "basicAuth"
    case ForwardAuth => "forwardAuth"
    case RateLimit => "rateLimit"
    case IPAllowList => "ipAllowList"
    case Retry => "retry"
    case Compress => "compress"
    case CircuitBreaker => "circuitBreaker"
    case Chain => "chain"
    case Unsupported(name) => name
  }

  lemma TypeNamesDistinct(a: MwType, b: MwType)
    requires !a.Unsupported? && !b.Unsupported? && TypeName(a) == TypeName(b)
    ensures a == b
  {
    assert TypeName(a)[0] == TypeName(b)[0] && |TypeName(a)| == |TypeName(b)|;
  }

  function Wrap(kind: MwType, body: Value): Value { Obj(map[TypeName(kind) := body]) }

  // The operator's object verbatim; a nil map prints as null.
  function Verbatim(mw: Middleware): Value {
    if mw.config.None? then Null else Obj(mw.config.value)
  }

  function RenderList(mw: Middleware, field: string, mayBeEmpty: bool): Result<Value, MwError> {
    if field !in Config(mw) then Failure(MissingField(field))
    else match StringList(Config(mw)[field])
      case None => Failure(NotAList(field))
      case Some(xs) =>
        if xs == [] && !mayBeEmpty then Failure(EmptyList(field))
        else Success(Wrap(mw.kind, Obj(map[field := Strings(xs)])))
  }

  function RedirectBody(p: Platform, cfg: Object): Object {
    var scheme := if StrAt(cfg, "scheme") == "" then "https" else StrAt(cfg, "scheme");
    var body := map["scheme" := Str(scheme)];
    var body := if "permanent" in cfg then body["permanent" := cfg["permanent"]] else body;
    if "port" in cfg then body["port" := Str(p.sprint(cfg["port"]))] else body
  }

  function RetryBody(attempts: int, cfg: Object): Object {
    var body := map["attempts" := Num(attempts as real)];
    if StrAt(cfg, "initialInterval") != "" then body["initialInterval" := cfg["initialInterval"]] else body
  }

  /** What renderMiddleware returns. */
  function Render(p: Platform, mw: Middleware): Result<Value, MwError> {
    var cfg := Config(mw);
    match mw.kind
    case Headers => Success(Wrap(Headers, Verbatim(mw)))
    case RedirectScheme => Success(Wrap(RedirectScheme, Obj(RedirectBody(p, cfg))))
    case StripPrefix => RenderList(mw, "prefixes", true)
    case BasicAuth => RenderList(mw, "users", true)
    case ForwardAuth =>
      if TrimSpace(StrAt(cfg, "address")) == "" then Failure(MissingField("address"))
      else Success(Wrap(ForwardAuth, Verbatim(mw)))
    case RateLimit =>
      if "average" !in cfg && "burst" !in cfg then Failure(MissingField("average or burst"))
      else Success(Wrap(RateLimit, Verbatim(mw)))
    case IPAllowList => RenderList(mw, "sourceRange", false)
    case Retry =>
      var attempts := if "attempts" in cfg then IntOf(cfg["attempts"]) else None;
      if attempts.None? || attempts.value <= 0 then Failure(NotPositive("attempts"))
      else Success(Wrap(Retry, Obj(RetryBody(attempts.value, cfg))))
    case Compress => Success(Wrap(Compress, Verbatim(mw)))
    case CircuitBreaker =>
      if TrimSpace(StrAt(cfg, "expression")) == "" then Failure(MissingField("expression"))
      else Success(Wrap(CircuitBreaker, Obj(map["expression" := Str(StrAt(cfg, "expression"))])))
    case Chain => RenderList(mw, "middlewares", false)
    case Unsupported(_) => Failure(UnsupportedType(mw.kind))
  }

  method RenderListField(mw: Middleware, field: string, mayBeEmpty: bool) returns (r: Result<Value, MwError>)
    ensures r == RenderList(mw, field, mayBeEmpty)
  {
    if field !in Config(mw) {
      return Failure(MissingField(field));
    }
    var xs := ToStringSlice(Config(mw)[field]);
    if xs.None? {
      return Failure(NotAList(field));
    }
    if |xs.value| == 0 && !mayBeEmpty {
      return Failure(EmptyList(field));
    }
    r := Success(Wrap(mw.kind, Obj(map[field := Strings(xs.value)])));
  }

  /** renderMiddleware: lists are read by a loop, the rest are expressions. */
  method RenderMiddleware(p: Platform, mw: Middleware) returns (r: Result<Value, MwError>)
    ensures r == Render(p, mw)
  {
    match mw.kind
    case StripPrefix => r := RenderListField(mw, "prefixes", true);
    case BasicAuth => r := RenderListField(mw, "users", true);
    case IPAllowList => r := RenderListField(mw, "sourceRange", false);
    case Chain => r := RenderListField(mw, "middlewares", false);
    case _ => r := Render(p, mw);
  }

  // ---------------------------------------------------------------- what a middleware means

  /** The behaviour an operator asks for, free of any document shape. Options
      are an operator's own fields, or None when there are none at all. */
  datatype Behaviour =
    | SetHeaders(options: Option<Object>)
    | RedirectTo(scheme: string, permanent: Option<Value>, port: Option<string>)
    | Strip(prefixes: seq<string>)
    | CheckUsers(users: seq<string>)
    | AskAuthServer(options: Option<Object>)
    | LimitRate(options: Option<Object>)
    | AllowOnly(ranges: seq<string>)
    | RetryUpTo(attempts: int, interval: string)
    | CompressBody(options: Option<Object>)
    | BreakOn(expression: string)
    | InOrder(names: seq<string>)

  // A list an operator wrote; None when the field is absent or not a list of strings.
  function Listed(mw: Middleware, field: string): Option<seq<string>> {
    if field in Config(mw) then StringList(Config(mw)[field]) else None
  }

  function FieldOf(o: Object, k: string): (r: Option<Value>)
    ensures r.None? <==> k !in o
    ensures k in o ==> r == Some(o[k])
  {
    if k in o then Some(o[k]) else None
  }

  // A text of more than space.
  ghost predicate HasText(o: Object, field: string) {
    field in o && o[field].Str? && !AllSpace(o[field].s)
  }

  lemma HasTextIff(o: Object, field: string)
    ensures HasText(o, field) <==> TrimSpace(StrAt(o, field)) != ""
  {
    hide TrimSpace, IsSpace;
    BlankExact(StrAt(o, field));
  }

  function Attempts(mw: Middleware): int {
    if "attempts" in Config(mw) && IntOf(Config(mw)["attempts"]).Some? then IntOf(Config(mw)["attempts"]).value else 0
  }

  /** Whether a middleware, as the operator wrote it, asks for something that
      can be served. */
  ghost predicate Servable(mw: Middleware) {
    match mw.kind
    case Headers | RedirectScheme | Compress => true
    case StripPrefix => Listed(mw, "prefixes").Some?
    case BasicAuth => Listed(mw, "users").Some?
    case IPAllowList => Listed(mw, "sourceRange").Some? && Listed(mw, "sourceRange").value != []
    case Chain => Listed(mw, "middlewares").Some? && Listed(mw, "middlewares").value != []
    case ForwardAuth => HasText(Config(mw), "address")
    case CircuitBreaker => HasText(Config(mw), "expression")
    case RateLimit => "average" in Config(mw) || "burst" in Config(mw)
    case Retry => Attempts(mw) > 0
    case Unsupported(_) => false
  }

  ghost function Asked(p: Platform, mw: Middleware): Behaviour
    requires Servable(mw)
  {
    var cfg := Config(mw);
    match mw.kind
    case Headers => SetHeaders(mw.config)
    case Compress => CompressBody(mw.config)
    case ForwardAuth => AskAuthServer(mw.config)
    case RateLimit => LimitRate(mw.config)
    case RedirectScheme =>
      RedirectTo(
        if StrAt(cfg, "scheme") == "" then "https" else StrAt(cfg, "scheme"),
        FieldOf(cfg, "permanent"),
        if "port" in cfg then Some(p.sprint(cfg["port"])) else None)
    case StripPrefix => Strip(Listed(mw, "prefixes").value)
    case BasicAuth => CheckUsers(Listed(mw, "users").value)
    case IPAllowList => AllowOnly(Listed(mw, "sourceRange").value)
    case Chain => InOrder(Listed(mw, "middlewares").value)
    case CircuitBreaker => BreakOn(StrAt(cfg, "expression"))
    case Retry => RetryUpTo(Attempts(mw), StrAt(cfg, "initialInterval"))
  }

  // The list that is a body's only field.
  ghost function ReadList(body: Value, field: string): Option<seq<string>> {
    if body.Obj? && body.fields.Keys == {field} then StringList(body.fields[field]) else None
  }

  /** The type that Traefik knows by a key. */
  ghost function TypeOfKey(k: string): Option<MwType> {
    if k == "headers" then Some(Headers)
    else if k == "redirectScheme" then Some(RedirectScheme)
    else if k == "stripPrefix" then Some(StripPrefix)
    else if k == "basicAuth" then Some(BasicAuth)
    else if k == "forwardAuth" then Some(ForwardAuth)
    else if k == "rateLimit" then Some(RateLimit)
    else if k == "ipAllowList" then Some(IPAllowList)
    else if k == "retry" then Some(Retry)
    else if k == "compress" then Some(Compress)
    else if k == "circuitBreaker" then Some(CircuitBreaker)
    else if k == "chain" then Some(Chain)
    else None
  }

  // The only key of an object.
  ghost function OnlyKey(v: Value): Option<string> {
    if v.Obj? && exists k :: v.fields.Keys == {k} then
      var k :| v.fields.Keys == {k};
      Some(k)
    else None
  }

  // The type of a definition that Traefik is given.
  ghost function ReadType(v: Value): Option<MwType> {
    match OnlyKey(v) case Some(k) => TypeOfKey(k) case None => None
  }

  // Options are read whole, as the operator's fields or as nothing.
  ghost function ReadOptions(body: Value): Option<Option<Object>> {
    match body case Obj(fields) => Some(Some(fields)) case Null => Some(None) case _ => None
  }

  ghost function ReadBody(kind: MwType, body: Value): Option<Behaviour> {
    var o := if body.Obj? then body.fields else map[];
    match kind
    case Headers =>
      (match ReadOptions(body) case Some(x) => Some(SetHeaders(x)) case None => None)
    case Compress =>
      (match ReadOptions(body) case Some(x) => Some(CompressBody(x)) case None => None)
    case ForwardAuth =>
      (match ReadOptions(body) case Some(x) => Some(AskAuthServer(x)) case None => None)
    case RateLimit =>
      (match ReadOptions(body) case Some(x) => Some(LimitRate(x)) case None => None)
    case RedirectScheme =>
      if o.Keys <= {"scheme", "permanent", "port"} then
        Some(RedirectTo(StrAt(o, "scheme"), FieldOf(o, "permanent"),
          if "port" in o then Some(StrAt(o, "port")) else None))
      else None
    case StripPrefix =>
      (match ReadList(body, "prefixes") case Some(xs) => Some(Strip(xs)) case None => None)
    case BasicAuth =>
      (match ReadList(body, "users") case Some(xs) => Some(CheckUsers(xs)) case None => None)
    case IPAllowList =>
      (match ReadList(body, "sourceRange") case Some(xs) => Some(AllowOnly(xs)) case None => None)
    case Chain =>
      (match ReadList(body, "middlewares") case Some(xs) => Some(InOrder(xs)) case None => None)
    case CircuitBreaker =>
      if o.Keys == {"expression"} then Some(BreakOn(StrAt(o, "expression"))) else None
    case Retry =>
      if "attempts" in o && IntOf(o["attempts"]).Some? && o.Keys <= {"attempts", "initialInterval"} then
        Some(RetryUpTo(IntOf(o["attempts"]).value, StrAt(o, "initialInterval")))
      else None
    case Unsupported(_) => None
  }

  /** How Traefik reads a middleware definition: one field, named after the type. */
  ghost function ReadBehaviour(v: Value): Option<Behaviour> {
    match OnlyKey(v)
    case None => None
    case Some(k) => match TypeOfKey(k) case None => None case Some(kind) => ReadBody(kind, v.fields[k])
  }

  lemma KeyOfType(kind: MwType)
    requires !kind.Unsupported?
    ensures TypeOfKey(TypeName(kind)) == Some(kind)
  {
    assert |"headers"| == 7 && |"redirectScheme"| == 14 && |"stripPrefix"| == 11 && |"basicAuth"| == 9 && |"forwardAuth"| == 11;
    assert |"rateLimit"| == 9 && |"ipAllowList"| == 11 && |"retry"| == 5 && |"compress"| == 8 && |"circuitBreaker"| == 14 && |"chain"| == 5;
  }

  lemma ReadWrapped(kind: MwType, body: Value)
    requires !kind.Unsupported?
    ensures ReadType(Wrap(kind, body)) == Some(kind)
    ensures ReadBehaviour(Wrap(kind, body)) == ReadBody(kind, body)
  {
    hide TypeOfKey, TypeName, ReadBody;
    var v := Wrap(kind, body);
    KeyOfType(kind);
    assert v.fields.Keys == {TypeName(kind)};
    assert OnlyKey(v) == Some(TypeName(kind)) by {
      var k := OnlyKey(v).value;
      assert k in v.fields.Keys;
    }
  }

  lemma RenderListRead(mw: Middleware, field: string, mayBeEmpty: bool)
    ensures RenderList(mw, field, mayBeEmpty).Success? <==>
            Listed(mw, field).Some? && (mayBeEmpty || Listed(mw, field).value != [])
    ensures RenderList(mw, field, mayBeEmpty).Success? ==>
            RenderList(mw, field, mayBeEmpty).value == Wrap(mw.kind, Obj(map[field := Strings(Listed(mw, field).value)])) &&
            ReadList(Obj(map[field := Strings(Listed(mw, field).value)]), field) == Listed(mw, field)
  {
    assert forall v: Value :: map[field := v].Keys == {field};
    if Listed(mw, field).Some? { StringsRoundTrip(Listed(mw, field).value); }
  }

  lemma RedirectRead(p: Platform, cfg: Object)
    ensures var o := RedirectBody(p, cfg);
      && StrAt(o, "scheme") == (if StrAt(cfg, "scheme") == "" then "https" else StrAt(cfg, "scheme"))
      && FieldOf(o, "permanent") == FieldOf(cfg, "permanent")
      && ("port" in o <==> "port" in cfg) && ("port" in o ==> StrAt(o, "port") == p.sprint(cfg["port"]))
      && o.Keys <= {"scheme", "permanent", "port"}
  {
    assert |"scheme"| == 6 && |"permanent"| == 9 && |"port"| == 4;
  }

  lemma RetryRead(n: int, cfg: Object)
    requires -0x8000_0000_0000_0000 <= n < 0x8000_0000_0000_0000
    ensures var o := RetryBody(n, cfg);
      "attempts" in o && IntOf(o["attempts"]) == Some(n) && StrAt(o, "initialInterval") == StrAt(cfg, "initialInterval") &&
      o.Keys <= {"attempts", "initialInterval"}
  {
    assert |"attempts"| == 8 && |"initialInterval"| == 15;
  }

  /** Rendering succeeds exactly on the servable middlewares, and Traefik reads
      back exactly the behaviour that was asked for. */
  lemma RenderPreservesBehaviour(p: Platform, mw: Middleware)
    ensures Render(p, mw).Success? <==> Servable(mw)
    ensures Render(p, mw).Success? ==>
      ReadType(Render(p, mw).value) == Some(mw.kind) && ReadBehaviour(Render(p, mw).value) == Some(Asked(p, mw))
  {
    var cfg := Config(mw);
    match mw.kind {
      case StripPrefix => RenderListRead(mw, "prefixes", true);
      case BasicAuth => RenderListRead(mw, "users", true);
      case IPAllowList => RenderListRead(mw, "sourceRange", false);
      case Chain => RenderListRead(mw, "middlewares", false);
      case RedirectScheme => RedirectRead(p, cfg);
      case ForwardAuth => HasTextIff(cfg, "address");
      case CircuitBreaker => HasTextIff(cfg, "expression");
      case Retry => if Attempts(mw) > 0 { RetryRead(Attempts(mw), cfg); }
      case _ =>
    }
    if Render(p, mw).Success? {
      var v := Render(p, mw).value;
      assert v == Wrap(mw.kind, v.fields[TypeName(mw.kind)]);
      ReadWrapped(mw.kind, v.fields[TypeName(mw.kind)]);
    }
  }

  /** Header rules, forward authentication, rate limits and compression carry the
      operator's own fields, each as it is and no other; null stands for none. */
  lemma OptionsAreTheOperators(p: Platform, mw: Middleware)
    requires mw.kind in {Headers, ForwardAuth, RateLimit, Compress} && Render(p, mw).Success?
    ensures var v := Render(p, mw).value;
      var key := if mw.kind == Headers then "headers" else if mw.kind == ForwardAuth then "forwardAuth"
        else if mw.kind == RateLimit then "rateLimit" else "compress";
      && v.Obj? && v.fields.Keys == {key}
      && (v.fields[key] == Null <==> mw.config == None)
      && (v.fields[key] != Null ==>
            v.fields[key].Obj? && forall k :: FieldOf(v.fields[key].fields, k) == FieldOf(Config(mw), k))
  {
  }

  /** What is wrong with a middleware that is not rendered. */
  ghost predicate Rejects(mw: Middleware, e: MwError) {
    var cfg := Config(mw);
    match e
    case UnsupportedType(kind) => kind == mw.kind && kind.Unsupported?
    case MissingField(f) =>
      || (IsListField(mw.kind, f) && f !in cfg)
      || (mw.kind == ForwardAuth && f == "address" && !HasText(cfg, f))
      || (mw.kind == CircuitBreaker && f == "expression" && !HasText(cfg, f))
      || (mw.kind == RateLimit && f == "average or burst" && "average" !in cfg && "burst" !in cfg)
    case NotAList(f) =>
      IsListField(mw.kind, f) && f in cfg && !(cfg[f].Arr? && forall i :: 0 <= i < |cfg[f].items| ==> cfg[f].items[i].Str?)
    case EmptyList(f) =>
      IsListField(mw.kind, f) && mw.kind in {IPAllowList, Chain} && f in cfg && cfg[f] == Arr([])
    case NotPositive(f) =>
      mw.kind == Retry && f == "attempts" &&
      !("attempts" in cfg && cfg["attempts"].Num? && cfg["attempts"].n == cfg["attempts"].n.Floor as real &&
        0 < cfg["attempts"].n.Floor <= 9223372036854775807)
  }

  ghost predicate IsListField(kind: MwType, f: string) {
    || (kind == StripPrefix && f == "prefixes") || (kind == BasicAuth && f == "users")
    || (kind == IPAllowList && f == "sourceRange") || (kind == Chain && f == "middlewares")
  }

  lemma ListErrorExact(mw: Middleware, field: string, mayBeEmpty: bool, e: MwError)
    requires IsListField(mw.kind, field) && (mayBeEmpty <==> mw.kind in {StripPrefix, BasicAuth})
    ensures RenderList(mw, field, mayBeEmpty) == Failure(e) <==> Rejects(mw, e)
  {
    hide HasText;
    assert forall f :: IsListField(mw.kind, f) <==> f == field;
    if field in Config(mw) && StringList(Config(mw)[field]) == Some([]) {
      assert Config(mw)[field].items == [];
    }
  }

  /** Each rejection says exactly what is wrong. */
  lemma RenderErrorExact(p: Platform, mw: Middleware, e: MwError)
    ensures Render(p, mw) == Failure(e) <==> Rejects(mw, e)
  {
    hide HasText, TrimSpace, StringList;
    match mw.kind {
      case StripPrefix => ListErrorExact(mw, "prefixes", true, e);
      case BasicAuth => ListErrorExact(mw, "users", true, e);
      case IPAllowList => ListErrorExact(mw, "sourceRange", false, e);
      case Chain => ListErrorExact(mw, "middlewares", false, e);
      case ForwardAuth => HasTextIff(Config(mw), "address");
      case CircuitBreaker => HasTextIff(Config(mw), "expression");
      case _ =>
    }
  }

  /** Middlewares that ask for the same are rendered the same. */
  lemma SameAskedSameRendered(p: Platform, a: Middleware, b: Middleware)
    requires Servable(a) && Servable(b) && Asked(p, a) == Asked(p, b)
    ensures a.kind == b.kind && Render(p, a) == Render(p, b)
  {
    match a.kind {
      case StripPrefix => RenderListRead(a, "prefixes", true); RenderListRead(b, "prefixes", true);
      case BasicAuth => RenderListRead(a, "users", true); RenderListRead(b, "users", true);
      case IPAllowList => RenderListRead(a, "sourceRange", false); RenderListRead(b, "sourceRange", false);
      case Chain => RenderListRead(a, "middlewares", false); RenderListRead(b, "middlewares", false);
      case RedirectScheme => SameRedirect(p, Config(a), Config(b));
      case ForwardAuth => HasTextIff(Config(a), "address"); HasTextIff(Config(b), "address");
      case CircuitBreaker => HasTextIff(Config(a), "expression"); HasTextIff(Config(b), "expression");
      case _ =>
    }
  }

  lemma SameRedirect(p: Platform, a: Object, b: Object)
    requires StrAt(RedirectBody(p, a), "scheme") == StrAt(RedirectBody(p, b), "scheme")
    requires FieldOf(a, "permanent") == FieldOf(b, "permanent")
    requires "port" in a <==> "port" in b
    requires "port" in a ==> p.sprint(a["port"]) == p.sprint(b["port"])
    ensures RedirectBody(p, a) == RedirectBody(p, b)
  {
    assert |"scheme"| == 6 && |"permanent"| == 9 && |"port"| == 4;
  }

  // ---------------------------------------------------------------- snapshots lose empty objects

  predicate LosesEmptyObject(mw: Middleware) {
    mw.config == Some(map[]) && (mw.kind == Headers || mw.kind == Compress)
  }

  /** Storing a middleware in a revision and reading it back never makes it
      unrenderable, and changes what is emitted exactly when a verbatim type
      carries an empty object, which comes back as null. */
  lemma SnapshotRender(p: Platform, mw: Middleware)
    ensures Render(p, SnapshotMw(mw)).Success? <==> Render(p, mw).Success?
    ensures Render(p, SnapshotMw(mw)) == Render(p, mw) <==> !LosesEmptyObject(mw)
  {
    if mw.config == Some(map[]) {
      assert Config(SnapshotMw(mw)) == Config(mw) == map[];
      assert Verbatim(SnapshotMw(mw)) != Verbatim(mw);
      assert Wrap(Headers, Null).fields["headers"] != Wrap(Headers, Obj(map[])).fields["headers"];
      assert Wrap(Compress, Null).fields["compress"] != Wrap(Compress, Obj(map[])).fields["compress"];
    }
  }

  // ---------------------------------------------------------------- lists of middlewares

  function RefsOf(mw: Middleware): seq<string> {
    var l := if "middlewares" in Config(mw) then StringList(Config(mw)["middlewares"]) else None;
    if l.Some? then l.value else []
  }

  lemma RenderedChain(p: Platform, mw: Middleware)
    requires mw.kind == Chain && Render(p, mw).Success?
    ensures Render(p, mw).value == Wrap(Chain, Obj(map["middlewares" := Strings(RefsOf(mw))]))
  {
  }

  // The last middleware of that raw name, which is the one a chain means.
  function LastNamed(mws: seq<Middleware>, name: string): (r: Option<nat>)
    ensures r.Some? ==> r.value < |mws| && mws[r.value].name == name
    ensures r.Some? ==> forall i :: r.value < i < |mws| ==> mws[i].name != name
    ensures r.None? ==> forall i :: 0 <= i < |mws| ==> mws[i].name != name
  {
    if mws == [] then None
    else if mws[|mws| - 1].name == name then Some(|mws| - 1)
    else LastNamed(mws[..|mws| - 1], name)
  }

  function FirstUnknown(mws: seq<Middleware>, refs: seq<string>): Option<string> {
    if refs == [] then None
    else match FirstUnknown(mws, refs[..|refs| - 1])
      case Some(r) => Some(r)
      case None => if LastNamed(mws, refs[|refs| - 1]).None? then Some(refs[|refs| - 1]) else None
  }

  function FirstRenderError(p: Platform, mws: seq<Middleware>): Option<(string, MwError)> {
    if mws == [] then None
    else match FirstRenderError(p, mws[..|mws| - 1])
      case Some(e) => Some(e)
      case None =>
        match Render(p, mws[|mws| - 1])
        case Failure(e) => Some((mws[|mws| - 1].name, e))
        case Success(_) => None
  }

  // The first chain among mws that names something not in the scope.
  function FirstChainError(scope: seq<Middleware>, mws: seq<Middleware>): Option<(string, string)> {
    if mws == [] then None
    else match FirstChainError(scope, mws[..|mws| - 1])
      case Some(e) => Some(e)
      case None =>
        var mw := mws[|mws| - 1];
        if mw.kind != Chain then None
        else match FirstUnknown(scope, RefsOf(mw))
          case None => None
          case Some(r) => Some((mw.name, r))
  }

  datatype ListError =
    | UnsupportedMw(kind: MwType, name: string)
    | Unrenderable(name: string, cause: MwError)
    | UnknownTarget(name: string, target: string)

  function ListFault(p: Platform, mws: seq<Middleware>): Option<ListError> {
    match FirstRenderError(p, mws)
    case Some((name, cause)) =>
      Some(if cause.UnsupportedType? then UnsupportedMw(cause.kind, name) else Unrenderable(name, cause))
    case None =>
      match FirstChainError(mws, mws)
      case Some((name, target)) => Some(UnknownTarget(name, target))
      case None => None
  }

  method ValidateMiddlewares(p: Platform, mws: seq<Middleware>) returns (r: Option<ListError>)
    ensures r == ListFault(p, mws)
  {
    hide FirstChainError, Render;
    var seen: set<string> := {};
    for i := 0 to |mws|
      invariant FirstRenderError(p, mws[..i]) == None
      invariant forall n :: n in seen <==> exists j :: 0 <= j < i && mws[j].name == n
    {
      var mw := mws[i];
      assert mws[..i + 1][..i] == mws[..i];
      var rendered := RenderMiddleware(p, mw);
      UnsupportedCause(p, mw);
      if rendered.Failure? { FirstRenderErrorStays(p, mws, i + 1); }
      if mw.kind.Unsupported? {
        return Some(UnsupportedMw(mw.kind, mw.name));
      }
      if rendered.Failure? {
        return Some(Unrenderable(mw.name, rendered.error));
      }
      seen := seen + {mw.name};
    }
    assert mws[..|mws|] == mws;
    var fault := CheckChains(mws, seen);
    r := match fault case Some((name, target)) => Some(UnknownTarget(name, target)) case None => None;
  }

  // The second loop of the check: every chain entry must have been seen.
  method CheckChains(mws: seq<Middleware>, seen: set<string>) returns (r: Option<(string, string)>)
    requires forall n :: n in seen <==> exists j :: 0 <= j < |mws| && mws[j].name == n
    ensures r == FirstChainError(mws, mws)
  {
    hide RefsOf, LastNamed;
    for i := 0 to |mws|
      invariant FirstChainError(mws, mws[..i]) == None
    {
      var mw := mws[i];
      assert mws[..i + 1][..i] == mws[..i];
      if mw.kind != Chain {
        continue;
      }
      var refs := RefsOf(mw);
      for k := 0 to |refs|
        invariant FirstUnknown(mws, refs[..k]) == None
      {
        assert refs[..k + 1][..k] == refs[..k];
        if refs[k] !in seen {
          FirstUnknownStays(mws, refs, k + 1);
          FirstChainErrorStays(mws, mws, i + 1);
          return Some((mw.name, refs[k]));
        }
      }
      assert refs[..|refs|] == refs;
    }
    assert mws[..|mws|] == mws;
    r := None;
  }

  lemma UnsupportedCause(p: Platform, mw: Middleware)
    ensures mw.kind.Unsupported? ==> Render(p, mw) == Failure(UnsupportedType(mw.kind))
    ensures !mw.kind.Unsupported? && Render(p, mw).Failure? ==> !Render(p, mw).error.UnsupportedType?
  {
  }

  lemma {:induction false} FirstRenderErrorStays(p: Platform, mws: seq<Middleware>, n: nat)
    requires n <= |mws| && FirstRenderError(p, mws[..n]).Some?
    ensures FirstRenderError(p, mws) == FirstRenderError(p, mws[..n])
  {
    if n < |mws| {
      assert mws[..|mws| - 1][..n] == mws[..n];
      FirstRenderErrorStays(p, mws[..|mws| - 1], n);
    } else {
      assert mws[..n] == mws;
    }
  }

  lemma {:induction false} FirstUnknownStays(mws: seq<Middleware>, refs: seq<string>, n: nat)
    requires n <= |refs| && FirstUnknown(mws, refs[..n]).Some?
    ensures FirstUnknown(mws, refs) == FirstUnknown(mws, refs[..n])
  {
    if n < |refs| {
      assert refs[..|refs| - 1][..n] == refs[..n];
      FirstUnknownStays(mws, refs[..|refs| - 1], n);
    } else {
      assert refs[..n] == refs;
    }
  }

  lemma {:induction false} FirstChainErrorStays(scope: seq<Middleware>, mws: seq<Middleware>, n: nat)
    requires n <= |mws| && FirstChainError(scope, mws[..n]).Some?
    ensures FirstChainError(scope, mws) == FirstChainError(scope, mws[..n])
  {
    if n < |mws| {
      assert mws[..|mws| - 1][..n] == mws[..n];
      FirstChainErrorStays(scope, mws[..|mws| - 1], n);
    } else {
      assert mws[..n] == mws;
    }
  }

  // ---------------------------------------------------------------- when a list is admitted

  /** Declaratively: every middleware renders and every chain entry names a
      middleware of the list. */
  ghost predicate Admissible(p: Platform, mws: seq<Middleware>) {
    && (forall i :: 0 <= i < |mws| ==> Render(p, mws[i]).Success?)
    && (forall i, k :: 0 <= i < |mws| && mws[i].kind == Chain && 0 <= k < |RefsOf(mws[i])| ==>
          LastNamed(mws, RefsOf(mws[i])[k]).Some?)
  }

  lemma {:induction false} NoRenderError(p: Platform, mws: seq<Middleware>)
    ensures FirstRenderError(p, mws).None? <==> forall i :: 0 <= i < |mws| ==> Render(p, mws[i]).Success?
  {
    if mws != [] {
      var init := mws[..|mws| - 1];
      NoRenderError(p, init);
      assert mws == init + [mws[|mws| - 1]];
    }
  }

  lemma {:induction false} NoUnknown(mws: seq<Middleware>, refs: seq<string>)
    ensures FirstUnknown(mws, refs).None? <==> forall k :: 0 <= k < |refs| ==> LastNamed(mws, refs[k]).Some?
  {
    if refs != [] {
      var init := refs[..|refs| - 1];
      NoUnknown(mws, init);
      assert refs == init + [refs[|refs| - 1]];
    }
  }

  ghost predicate ChainKnown(scope: seq<Middleware>, mw: Middleware) {
    mw.kind == Chain ==> forall k :: 0 <= k < |RefsOf(mw)| ==> LastNamed(scope, RefsOf(mw)[k]).Some?
  }

  lemma {:induction false} NoChainError(scope: seq<Middleware>, mws: seq<Middleware>)
    ensures FirstChainError(scope, mws).None? <==> forall i :: 0 <= i < |mws| ==> ChainKnown(scope, mws[i])
  {
    if mws != [] {
      var init := mws[..|mws| - 1];
      NoChainError(scope, init);
      NoUnknown(scope, RefsOf(mws[|mws| - 1]));
      assert mws == init + [mws[|mws| - 1]];
    }
  }

  /** The looping check accepts exactly the admissible lists. */
  lemma ListFaultExact(p: Platform, mws: seq<Middleware>)
    ensures ListFault(p, mws).None? <==> Admissible(p, mws)
  {
    NoRenderError(p, mws);
    NoChainError(mws, mws);
    if forall i :: 0 <= i < |mws| ==> ChainKnown(mws, mws[i]) {
      forall i, k | 0 <= i < |mws| && mws[i].kind == Chain && 0 <= k < |RefsOf(mws[i])|
        ensures LastNamed(mws, RefsOf(mws[i])[k]).Some?
      {
        assert ChainKnown(mws, mws[i]);
      }
    }
  }

  ghost predicate AllRender(p: Platform, mws: seq<Middleware>) {
    forall i :: 0 <= i < |mws| ==> Render(p, mws[i]).Success?
  }

  // The i-th middleware is the first that does not render.
  ghost predicate FirstBad(p: Platform, mws: seq<Middleware>, i: int, name: string, cause: MwError) {
    0 <= i < |mws| && mws[i].name == name && Render(p, mws[i]) == Failure(cause) && AllRender(p, mws[..i])
  }

  lemma {:induction false} RenderErrorIsFirst(p: Platform, mws: seq<Middleware>) returns (i: nat)
    requires FirstRenderError(p, mws).Some?
    ensures FirstBad(p, mws, i, FirstRenderError(p, mws).value.0, FirstRenderError(p, mws).value.1)
  {
    hide Render;
    var init := mws[..|mws| - 1];
    if FirstRenderError(p, init).Some? {
      i := RenderErrorIsFirst(p, init);
      assert init[..i] == mws[..i];
    } else {
      i := |mws| - 1;
      NoRenderError(p, init);
    }
  }

  // The k-th entry is the first that names no middleware of the scope.
  ghost predicate FirstLost(scope: seq<Middleware>, refs: seq<string>, k: int, target: string) {
    0 <= k < |refs| && refs[k] == target && !IsNamed(scope, target) && forall m :: 0 <= m < k ==> IsNamed(scope, refs[m])
  }

  ghost predicate IsNamed(mws: seq<Middleware>, name: string) {
    exists j :: 0 <= j < |mws| && mws[j].name == name
  }

  lemma {:induction false} UnknownIsFirst(scope: seq<Middleware>, refs: seq<string>) returns (k: nat)
    requires FirstUnknown(scope, refs).Some?
    ensures FirstLost(scope, refs, k, FirstUnknown(scope, refs).value)
  {
    var init := refs[..|refs| - 1];
    if FirstUnknown(scope, init).Some? {
      k := UnknownIsFirst(scope, init);
      forall m | 0 <= m < k ensures IsNamed(scope, refs[m]) { assert init[m] == refs[m]; }
    } else {
      k := |refs| - 1;
      NoUnknown(scope, init);
      forall m | 0 <= m < k ensures IsNamed(scope, refs[m]) {
        assert init[m] == refs[m] && LastNamed(scope, init[m]).Some?;
      }
    }
  }

  // The i-th middleware is the first chain with such an entry.
  ghost predicate FirstBroken(scope: seq<Middleware>, mws: seq<Middleware>, i: int, name: string, target: string) {
    && 0 <= i < |mws| && mws[i].kind == Chain && mws[i].name == name
    && (exists k :: FirstLost(scope, RefsOf(mws[i]), k, target))
    && forall m :: 0 <= m < i ==> ChainKnown(scope, mws[m])
  }

  lemma {:induction false} ChainErrorIsFirst(scope: seq<Middleware>, mws: seq<Middleware>) returns (i: nat)
    requires FirstChainError(scope, mws).Some?
    ensures FirstBroken(scope, mws, i, FirstChainError(scope, mws).value.0, FirstChainError(scope, mws).value.1)
  {
    hide ChainKnown, RefsOf, FirstLost;
    var init := mws[..|mws| - 1];
    if FirstChainError(scope, init).Some? {
      i := ChainErrorIsFirst(scope, init);
      assert forall m :: 0 <= m <= i ==> init[m] == mws[m];
    } else {
      i := |mws| - 1;
      var k := UnknownIsFirst(scope, RefsOf(mws[i]));
      NoChainError(scope, init);
      assert forall m :: 0 <= m < i ==> init[m] == mws[m];
    }
  }

  /** A rejected list is blamed on its first middleware that does not render, or,
      when all do, on the first chain with an entry that names no middleware of
      the list, and on the first such entry. */
  lemma ListFaultIsFirst(p: Platform, mws: seq<Middleware>)
    requires ListFault(p, mws).Some?
    ensures match ListFault(p, mws).value
      case UnsupportedMw(kind, name) => exists i :: FirstBad(p, mws, i, name, UnsupportedType(kind))
      case Unrenderable(name, cause) => !cause.UnsupportedType? && exists i :: FirstBad(p, mws, i, name, cause)
      case UnknownTarget(name, target) => AllRender(p, mws) && exists i :: FirstBroken(mws, mws, i, name, target)
  {
    hide Render, FirstBad, FirstBroken, FirstRenderError, FirstChainError;
    if FirstRenderError(p, mws).Some? {
      var i := RenderErrorIsFirst(p, mws);
    } else {
      NoRenderError(p, mws);
      var i := ChainErrorIsFirst(mws, mws);
    }
  }

  lemma {:induction false} LastNamedConcat(a: seq<Middleware>, b: seq<Middleware>, name: string)
    ensures LastNamed(a + b, name) ==
            match LastNamed(b, name) case Some(i) => Some(|a| + i) case None => LastNamed(a, name)
  {
    if b == [] {
      assert a + b == a;
    } else {
      var init := b[..|b| - 1];
      assert (a + b)[|a + b| - 1] == b[|b| - 1];
      assert (a + b)[..|a + b| - 1] == a + init;
      LastNamedConcat(a, init, name);
    }
  }

  /** Appending an admitted template to an admitted list is admitted, and a
      chain of the host keeps an entry's target exactly when the template has
      no middleware of that raw name. */
  lemma ApplyTemplate(p: Platform, own: seq<Middleware>, template: seq<Middleware>)
    requires Admissible(p, own) && Admissible(p, template)
    ensures Admissible(p, own + template)
    ensures forall name :: LastNamed(own, name).Some? ==>
      (LastNamed(own + template, name) == LastNamed(own, name) <==>
       forall i :: 0 <= i < |template| ==> template[i].name != name)
  {
    var all := own + template;
    forall i, k | 0 <= i < |all| && all[i].kind == Chain && 0 <= k < |RefsOf(all[i])|
      ensures LastNamed(all, RefsOf(all[i])[k]).Some?
    {
      var name := RefsOf(all[i])[k];
      LastNamedConcat(own, template, name);
      if i < |own| { assert all[i] == own[i]; } else { assert all[i] == template[i - |own|]; }
    }
    forall name | LastNamed(own, name).Some?
      ensures LastNamed(all, name) == LastNamed(own, name) <==>
              forall i :: 0 <= i < |template| ==> template[i].name != name
    {
      LastNamedConcat(own, template, name);
    }
  }
}
