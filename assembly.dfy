/**
 * Request assembly from parameters (`handle_parameters`). Each parameter acts
 * on the request under construction: headers and query pairs are appended,
 * data of every kind goes into a key to JSON map where a later key overwrites
 * an earlier one, and in multipart mode plain data and form files become form
 * fields. After the last parameter the body is attached: the multipart form,
 * or the map as a form or as JSON when it is not empty. A parameter whose file
 * cannot be read or whose JSON does not parse aborts the whole assembly.
 */
module Assembly {
  import opened Results
  import opened Errors
  import opened Params
  import opened Requests

  /** What one parameter does to the request under construction. */
  datatype Effect =
    | AddHeader(key: string, value: string)
    | AddQuery(key: string, value: string)
    | Insert(key: string, json: JsonValue)
    | AddPart(part: Part)

  /** The request so far, the data map, and the multipart form when in multipart mode. */
  datatype Builder = Builder(req: Request, data: map<string, JsonValue>, multipart: Option<seq<Part>>)

  /** A form file may only appear in multipart mode (the form is unwrapped for it). */
  predicate FormFilesNeedMultipart(ps: seq<Parameter>, multipart: bool) {
    forall i :: 0 <= i < |ps| && IsFormFile(ps[i]) ==> multipart
  }

  /** The parameters that write into the data map: every data kind but form files, and plain data only outside multipart mode. */
  predicate InsertsInto(p: Parameter, multipart: bool) {
    IsData(p) && !IsFormFile(p) && !(multipart && p.Data?)
  }

  /**
   * What a parameter does: the error that aborts assembly when its file cannot
   * be read or its JSON does not parse, and otherwise its effect.
   */
  function Route(p: Parameter, multipart: bool, env: Env): (r: Result<Effect, Error>)
    requires IsFormFile(p) ==> multipart
    ensures r.Success? && r.value.Insert? <==> r.Success? && InsertsInto(p, multipart)
    ensures r.Success? && r.value.Insert? ==> r.value.key == p.key
    ensures r.Success? && r.value.AddPart? ==> multipart && r.value.part.name == p.key
    ensures r.Failure? ==> p.RawJsonData? || p.RawJsonDataFile? || p.DataFile? || p.FormFile?
    // Header and query parameters are added as they are written.
    ensures p.Header? ==> r == Success(AddHeader(p.key, p.value))
    ensures p.Query? ==> r == Success(AddQuery(p.key, p.value))
    // Plain data is a JSON string, or a text field of the form in multipart mode.
    ensures p.Data? && !multipart ==> r == Success(Insert(p.key, JString(p.value)))
    ensures p.Data? && multipart ==> r == Success(AddPart(TextField(p.key, p.value)))
    // Raw JSON is the parsed value; text that does not parse is a JSON error.
    ensures p.RawJsonData? ==> (r.Failure? <==> env.parseJson(p.value).Failure?)
    ensures p.RawJsonData? && r.Failure? ==> r.error == SerdeJson(env.parseJson(p.value).error)
    ensures p.RawJsonData? && r.Success? ==> r.value == Insert(p.key, env.parseJson(p.value).value)
    // The three file kinds: a file that cannot be read is an I/O error.
    ensures (p.RawJsonDataFile? || p.DataFile? || p.FormFile?) && env.readFile(p.value).Failure? ==>
      r == Failure(IO(env.readFile(p.value).error))
    ensures p.DataFile? && env.readFile(p.value).Success? ==>
      r == Success(Insert(p.key, JString(env.readFile(p.value).value)))
    ensures p.RawJsonDataFile? && env.readFile(p.value).Success? ==>
      var text := env.readFile(p.value).value;
      && (r.Failure? <==> env.parseJson(text).Failure?)
      && (r.Failure? ==> r.error == SerdeJson(env.parseJson(text).error))
      && (r.Success? ==> r.value == Insert(p.key, env.parseJson(text).value))
    ensures p.FormFile? && env.readFile(p.value).Success? ==>
      r == Success(AddPart(FileField(p.key, p.value, env.readFile(p.value).value)))
  {
    match p
    case Header(k, v) => Success(AddHeader(k, v))
    case Data(k, v) =>
      if !multipart then Success(Insert(k, JString(v))) else Success(AddPart(TextField(k, v)))
    case Query(k, v) => Success(AddQuery(k, v))
    case RawJsonData(k, v) =>
      (match env.parseJson(v)
       case Success(j) => Success(Insert(k, j))
       case Failure(c) => Failure(SerdeJson(c)))
    case RawJsonDataFile(k, f) =>
      (match env.readFile(f)
       case Failure(e) => Failure(IO(e))
       case Success(text) =>
         match env.parseJson(text)
         case Success(j) => Success(Insert(k, j))
         case Failure(c) => Failure(SerdeJson(c)))
    case DataFile(k, f) =>
      (match env.readFile(f)
       case Failure(e) => Failure(IO(e))
       case Success(text) => Success(Insert(k, JString(text))))
    case FormFile(k, f) =>
      (match env.readFile(f)
       case Failure(e) => Failure(IO(e))
       case Success(contents) => Success(AddPart(FileField(k, f, contents))))
  }

  /** The effects of the parameters in order, or the error of the first parameter that fails. */
  function Effects(ps: seq<Parameter>, multipart: bool, env: Env): Result<seq<Effect>, Error>
    requires FormFilesNeedMultipart(ps, multipart)
    decreases |ps|
  {
    if ps == [] then Success([])
    else
      var init := ps[..|ps| - 1];
      assert forall i :: 0 <= i < |init| ==> init[i] == ps[i];
      match Effects(init, multipart, env)
      case Failure(e) => Failure(e)
      case Success(es) =>
        match Route(ps[|ps| - 1], multipart, env)
        case Failure(e) => Failure(e)
        case Success(e) => Success(es + [e])
  }

  function Apply(b: Builder, e: Effect): Builder {
    match e
    case AddHeader(k, v) => b.(req := b.req.(headers := b.req.headers + [(k, v)]))
    case AddQuery(k, v) => b.(req := b.req.(query := b.req.query + [(k, v)]))
    case Insert(k, j) => b.(data := b.data[k := j])
    case AddPart(part) => b.(multipart := Some(b.multipart.GetOr([]) + [part]))
  }

  function ApplyAll(b: Builder, es: seq<Effect>): Builder
    decreases |es|
  {
    if es == [] then b else Apply(ApplyAll(b, es[..|es| - 1]), es[|es| - 1])
  }

  /** The state before the first parameter: an empty map, and an empty form in multipart mode. */
  function Start(builder: Request, multipart: bool): Builder {
    Builder(builder, map[], if multipart then Some([]) else None)
  }

  /** The body attached after the last parameter. */
  function Finish(b: Builder, isForm: bool): Request {
    match b.multipart
    case Some(m) => b.req.(body := MultipartBody(m))
    case None =>
      if b.data == map[] then b.req
      else if isForm then b.req.(body := FormBody(b.data))
      else b.req.(body := JsonBody(b.data))
  }

  /** Every parameter applied in order, then the body attached once. */
  function Assemble(builder: Request, isForm: bool, isMultipart: bool, ps: seq<Parameter>, env: Env): Result<Request, Error>
    requires FormFilesNeedMultipart(ps, isMultipart)
  {
    match Effects(ps, isMultipart, env)
    case Failure(e) => Failure(e)
    case Success(es) => Success(Finish(ApplyAll(Start(builder, isMultipart), es), isForm))
  }

  /** `handle_parameters` */
  method HandleParameters(builder: Request, isForm: bool, isMultipart: bool, ps: seq<Parameter>, env: Env)
    returns (r: Result<Request, Error>)
    requires FormFilesNeedMultipart(ps, isMultipart)
    ensures r == Assemble(builder, isForm, isMultipart, ps, env)
  {
    var b := builder;
    var data: map<string, JsonValue> := map[];
    var multipart: Option<seq<Part>> := if isMultipart then Some([]) else None;
    ghost var es: seq<Effect> := [];
    for i := 0 to |ps|
      invariant Effects(ps[..i], isMultipart, env) == Success(es)
      invariant Builder(b, data, multipart) == ApplyAll(Start(builder, isMultipart), es)
      invariant multipart.Some? == isMultipart
    {
      EffectsStopsAtFailure(ps, i, isMultipart, env);
      assert ps[..i + 1][..i] == ps[..i];
      ghost var before := Builder(b, data, multipart);
      match ps[i] {
        case Header(key, value) =>
          b := b.(headers := b.headers + [(key, value)]);
        case Data(key, value) =>
          if multipart.None? {
            data := data[key := JString(value)];
          } else {
            multipart := Some(multipart.value + [TextField(key, value)]);
          }
        case Query(key, value) =>
          b := b.(query := b.query + [(key, value)]);
        case RawJsonData(key, value) =>
          var v := env.parseJson(value);
          if v.Failure? {
            return Failure(SerdeJson(v.error));
          }
          data := data[key := v.value];
        case RawJsonDataFile(key, filename) =>
          var text := env.readFile(filename);
          if text.Failure? {
            return Failure(IO(text.error));
          }
          var v := env.parseJson(text.value);
          if v.Failure? {
            return Failure(SerdeJson(v.error));
          }
          data := data[key := v.value];
        case DataFile(key, filename) =>
          var text := env.readFile(filename);
          if text.Failure? {
            return Failure(IO(text.error));
          }
          data := data[key := JString(text.value)];
        case FormFile(key, filename) =>
          var contents := env.readFile(filename);
          if contents.Failure? {
            return Failure(IO(contents.error));
          }
          multipart := Some(multipart.value + [FileField(key, filename, contents.value)]);
      }
      ghost var e := Route(ps[i], isMultipart, env).value;
      assert Builder(b, data, multipart) == Apply(before, e);
      assert (es + [e])[..|es|] == es;
      es := es + [e];
    }
    assert ps[..|ps|] == ps;
    if multipart.Some? {
      b := b.(body := MultipartBody(multipart.value));
    } else if data != map[] {
      if isForm {
        b := b.(body := FormBody(data));
      } else {
        b := b.(body := JsonBody(data));
      }
    }
    return Success(b);
  }

  /** Once a parameter fails, the whole sequence fails with its error. */
  lemma {:induction false} EffectsStopsAtFailure(ps: seq<Parameter>, i: nat, multipart: bool, env: Env)
    requires i < |ps| && FormFilesNeedMultipart(ps, multipart)
    ensures Effects(ps[..i], multipart, env).Success? && Route(ps[i], multipart, env).Failure? ==>
      Effects(ps, multipart, env) == Failure(Route(ps[i], multipart, env).error)
    decreases |ps|
  {
    if Effects(ps[..i], multipart, env).Success? && Route(ps[i], multipart, env).Failure? {
      var init := ps[..|ps| - 1];
      if i == |ps| - 1 {
        assert init == ps[..i];
      } else {
        assert init[..i] == ps[..i] && init[i] == ps[i];
        EffectsStopsAtFailure(init, i, multipart, env);
      }
    }
  }

  /** When every parameter succeeds there is one effect per parameter, its own. */
  lemma {:induction false} EffectsSucceed(ps: seq<Parameter>, multipart: bool, env: Env)
    requires FormFilesNeedMultipart(ps, multipart)
    ensures Effects(ps, multipart, env).Success? <==> forall i :: 0 <= i < |ps| ==> Route(ps[i], multipart, env).Success?
    ensures Effects(ps, multipart, env).Success? ==>
      var es := Effects(ps, multipart, env).value;
      |es| == |ps| && forall i :: 0 <= i < |ps| ==> Route(ps[i], multipart, env) == Success(es[i])
    decreases |ps|
  {
    if ps != [] {
      var init := ps[..|ps| - 1];
      assert forall i :: 0 <= i < |init| ==> init[i] == ps[i];
      EffectsSucceed(init, multipart, env);
    }
  }

  /** A failing assembly fails with the error of the first parameter that fails. */
  lemma {:induction false} EffectsFailFirst(ps: seq<Parameter>, multipart: bool, env: Env)
    requires FormFilesNeedMultipart(ps, multipart)
    ensures Effects(ps, multipart, env).Failure? ==>
      exists i :: 0 <= i < |ps| && Route(ps[i], multipart, env) == Failure(Effects(ps, multipart, env).error)
        && forall j :: 0 <= j < i ==> Route(ps[j], multipart, env).Success?
    decreases |ps|
  {
    if ps != [] && Effects(ps, multipart, env).Failure? {
      var init := ps[..|ps| - 1];
      assert forall i :: 0 <= i < |init| ==> init[i] == ps[i];
      EffectsFailFirst(init, multipart, env);
      EffectsSucceed(init, multipart, env);
      if Effects(init, multipart, env).Success? {
        var i := |ps| - 1;
        assert Route(ps[i], multipart, env) == Failure(Effects(ps, multipart, env).error);
      }
    }
  }

  /** The header a parameter contributes, if it is a header. */
  function HeaderOf(p: Parameter): seq<(string, string)> {
    if p.Header? then [(p.key, p.value)] else []
  }

  /** The query pair a parameter contributes, if it is a query. */
  function QueryOf(p: Parameter): seq<(string, string)> {
    if p.Query? then [(p.key, p.value)] else []
  }

  /** The multipart field a parameter contributes: plain data as text, a form file with its contents. */
  function PartOf(p: Parameter, env: Env): seq<Part> {
    match p
    case Data(k, v) => [TextField(k, v)]
    case FormFile(k, f) => (if env.readFile(f).Success? then [FileField(k, f, env.readFile(f).value)] else [])
    case _ => []
  }

  /** The header parameters as name and value pairs, in order. */
  function HeadersOf(ps: seq<Parameter>): seq<(string, string)>
    decreases |ps|
  {
    if ps == [] then [] else HeadersOf(ps[..|ps| - 1]) + HeaderOf(ps[|ps| - 1])
  }

  /** The query parameters as name and value pairs, in order, duplicates kept. */
  function QueriesOf(ps: seq<Parameter>): seq<(string, string)>
    decreases |ps|
  {
    if ps == [] then [] else QueriesOf(ps[..|ps| - 1]) + QueryOf(ps[|ps| - 1])
  }

  /** The multipart form fields of the parameters, in order. */
  function PartsOf(ps: seq<Parameter>, env: Env): seq<Part>
    decreases |ps|
  {
    if ps == [] then [] else PartsOf(ps[..|ps| - 1], env) + PartOf(ps[|ps| - 1], env)
  }

  /** Parameter `i` writes key `ps[i].key` and no later parameter writes the same key. */
  predicate IsLastWriter(ps: seq<Parameter>, multipart: bool, i: nat)
    requires i < |ps|
  {
    && InsertsInto(ps[i], multipart)
    && forall j :: i < j < |ps| && InsertsInto(ps[j], multipart) ==> ps[j].key != ps[i].key
  }

  /** Effect `e` appends exactly the header, query pair and form field that parameter `p` contributes. */
  predicate Contributes(p: Parameter, e: Effect, multipart: bool, env: Env) {
    && HeaderOf(p) == (if e.AddHeader? then [(e.key, e.value)] else [])
    && QueryOf(p) == (if e.AddQuery? then [(e.key, e.value)] else [])
    && (if multipart then PartOf(p, env) == (if e.AddPart? then [e.part] else []) else !e.AddPart?)
  }

  /** A parameter's successful effect is what it contributes. */
  lemma RouteContributes(p: Parameter, e: Effect, multipart: bool, env: Env)
    requires IsFormFile(p) ==> multipart
    requires Route(p, multipart, env) == Success(e)
    ensures Contributes(p, e, multipart, env)
  {
  }

  /** One effect appends what its parameter contributes. */
  lemma ApplyAppends(b: Builder, p: Parameter, e: Effect, multipart: bool, env: Env)
    requires b.multipart.Some? == multipart
    requires Contributes(p, e, multipart, env)
    ensures Apply(b, e).req == b.req.(headers := b.req.headers + HeaderOf(p), query := b.req.query + QueryOf(p))
    ensures Apply(b, e).multipart == if multipart then Some(b.multipart.value + PartOf(p, env)) else None
  {
    if !e.AddHeader? {
      assert b.req.headers + [] == b.req.headers;
    }
    if !e.AddQuery? {
      assert b.req.query + [] == b.req.query;
    }
    if multipart && !e.AddPart? {
      assert b.multipart.value + [] == b.multipart.value;
    }
  }

  /** Applying the effects of successful parameters appends their headers, queries and form fields in order. */
  lemma {:induction false} ApplyAllAppends(b: Builder, ps: seq<Parameter>, es: seq<Effect>, multipart: bool, env: Env)
    requires b.multipart.Some? == multipart
    requires |es| == |ps| && forall i :: 0 <= i < |ps| ==> Contributes(ps[i], es[i], multipart, env)
    ensures var r := ApplyAll(b, es);
      && r.req == b.req.(headers := b.req.headers + HeadersOf(ps), query := b.req.query + QueriesOf(ps))
      && r.multipart == if multipart then Some(b.multipart.value + PartsOf(ps, env)) else None
    decreases |ps|
  {
    if ps != [] {
      var n := |ps| - 1;
      var init, es0 := ps[..n], es[..n];
      forall i | 0 <= i < n ensures Contributes(init[i], es0[i], multipart, env) {
        assert init[i] == ps[i] && es0[i] == es[i];
      }
      ApplyAllAppends(b, init, es0, multipart, env);
      assert Contributes(ps[n], es[n], multipart, env);
      AppendStep(b, ApplyAll(b, es0), ps, es[n], multipart, env);
    } else if multipart {
      assert b.multipart.value + [] == b.multipart.value;
    }
  }

  /** The inductive step of ApplyAllAppends: one more parameter's contribution lands at the end. */
  lemma AppendStep(b: Builder, r0: Builder, ps: seq<Parameter>, e: Effect, multipart: bool, env: Env)
    requires ps != [] && b.multipart.Some? == multipart
    requires var init := ps[..|ps| - 1];
      && r0.req == b.req.(headers := b.req.headers + HeadersOf(init), query := b.req.query + QueriesOf(init))
      && r0.multipart == if multipart then Some(b.multipart.value + PartsOf(init, env)) else None
    requires Contributes(ps[|ps| - 1], e, multipart, env)
    ensures var r := Apply(r0, e);
      && r.req == b.req.(headers := b.req.headers + HeadersOf(ps), query := b.req.query + QueriesOf(ps))
      && r.multipart == if multipart then Some(b.multipart.value + PartsOf(ps, env)) else None
  {
    var n := |ps| - 1;
    var init, p := ps[..n], ps[n];
    var r := Apply(r0, e);
    ApplyAppends(r0, p, e, multipart, env);
    assert r.req.headers == b.req.headers + HeadersOf(ps) by {
      PairsAssoc(b.req.headers, HeadersOf(init), HeaderOf(p));
    }
    assert r.req.query == b.req.query + QueriesOf(ps) by {
      PairsAssoc(b.req.query, QueriesOf(init), QueryOf(p));
    }
    assert r.req.verb == b.req.verb && r.req.url == b.req.url;
    assert r.req.body == b.req.body && r.req.cookies == b.req.cookies && r.req.credentials == b.req.credentials;
    if multipart {
      assert b.multipart.value + PartsOf(init, env) + PartOf(p, env) == b.multipart.value + PartsOf(ps, env);
    }
  }

  lemma PairsAssoc(a: seq<(string, string)>, b: seq<(string, string)>, c: seq<(string, string)>)
    ensures (a + b) + c == a + (b + c)
  {
  }

  /** The effects of parameters that all succeed are what they contribute. */
  lemma RoutesContribute(ps: seq<Parameter>, es: seq<Effect>, multipart: bool, env: Env)
    requires FormFilesNeedMultipart(ps, multipart)
    requires |es| == |ps| && forall i :: 0 <= i < |ps| ==> Route(ps[i], multipart, env) == Success(es[i])
    ensures forall i :: 0 <= i < |ps| ==> Contributes(ps[i], es[i], multipart, env)
  {
    forall i | 0 <= i < |ps| ensures Contributes(ps[i], es[i], multipart, env) {
      RouteContributes(ps[i], es[i], multipart, env);
    }
  }

  /** The effects line up with the parameters as far as the data map is concerned. */
  predicate WritesMatch(ps: seq<Parameter>, es: seq<Effect>, multipart: bool) {
    && |es| == |ps|
    && (forall i :: 0 <= i < |ps| ==> (es[i].Insert? <==> InsertsInto(ps[i], multipart)))
    && (forall i :: 0 <= i < |ps| && es[i].Insert? ==> es[i].key == ps[i].key)
  }

  /** The map holds exactly the keys of the parameters that write into it. */
  ghost predicate KeysWritten(ps: seq<Parameter>, multipart: bool, m: map<string, JsonValue>) {
    forall k :: k in m <==> exists i :: 0 <= i < |ps| && InsertsInto(ps[i], multipart) && ps[i].key == k
  }

  /** Each key holds the value its last writer produced. */
  predicate LastValues(ps: seq<Parameter>, es: seq<Effect>, multipart: bool, m: map<string, JsonValue>)
    requires |es| == |ps|
  {
    forall i :: 0 <= i < |ps| && IsLastWriter(ps, multipart, i) ==> ps[i].key in m && es[i] == Insert(ps[i].key, m[ps[i].key])
  }

  /** The effect of the last parameter on the map. */
  lemma ApplyAllLast(b: Builder, ps: seq<Parameter>, es: seq<Effect>, multipart: bool)
    requires WritesMatch(ps, es, multipart) && ps != []
    ensures var n := |ps| - 1;
      ApplyAll(b, es).data ==
        if InsertsInto(ps[n], multipart) then ApplyAll(b, es[..n]).data[ps[n].key := es[n].json] else ApplyAll(b, es[..n]).data
  {
  }

  /** Starting from an empty map, the map after the effects holds exactly the written keys. */
  lemma {:induction false} ApplyAllKeys(b: Builder, ps: seq<Parameter>, es: seq<Effect>, multipart: bool)
    requires b.data == map[]
    requires WritesMatch(ps, es, multipart)
    ensures KeysWritten(ps, multipart, ApplyAll(b, es).data)
    decreases |ps|
  {
    if ps != [] {
      var n := |ps| - 1;
      var init, es0 := ps[..n], es[..n];
      assert WritesMatch(init, es0, multipart);
      ApplyAllKeys(b, init, es0, multipart);
      ApplyAllLast(b, ps, es, multipart);
      var m0 := ApplyAll(b, es0).data;
      var m := ApplyAll(b, es).data;
      forall k
        ensures k in m <==> exists i :: 0 <= i < |ps| && InsertsInto(ps[i], multipart) && ps[i].key == k
      {
        if k in m {
          if k in m0 {
            var i :| 0 <= i < |init| && InsertsInto(init[i], multipart) && init[i].key == k;
            assert InsertsInto(ps[i], multipart) && ps[i].key == k;
          } else {
            assert InsertsInto(ps[n], multipart) && ps[n].key == k;
          }
        }
        if exists i :: 0 <= i < |ps| && InsertsInto(ps[i], multipart) && ps[i].key == k {
          var i :| 0 <= i < |ps| && InsertsInto(ps[i], multipart) && ps[i].key == k;
          if i < n {
            assert InsertsInto(init[i], multipart) && init[i].key == k;
          }
        }
      }
    }
  }

  /** Starting from any map, each key holds the value of its last writer. */
  lemma {:induction false} ApplyAllValues(b: Builder, ps: seq<Parameter>, es: seq<Effect>, multipart: bool)
    requires WritesMatch(ps, es, multipart)
    ensures LastValues(ps, es, multipart, ApplyAll(b, es).data)
    decreases |ps|
  {
    if ps != [] {
      var n := |ps| - 1;
      var init, es0 := ps[..n], es[..n];
      assert WritesMatch(init, es0, multipart);
      ApplyAllValues(b, init, es0, multipart);
      ApplyAllLast(b, ps, es, multipart);
      var m0 := ApplyAll(b, es0).data;
      var m := ApplyAll(b, es).data;
      forall i | 0 <= i < |ps| && IsLastWriter(ps, multipart, i)
        ensures ps[i].key in m && es[i] == Insert(ps[i].key, m[ps[i].key])
      {
        var k := ps[i].key;
        if i < n {
          assert IsLastWriter(init, multipart, i);
          assert init[i] == ps[i] && es0[i] == es[i];
          assert !(InsertsInto(ps[n], multipart) && ps[n].key == k);
        }
      }
    }
  }

  /** Successful parameters produce effects that write exactly the keys of the parameters that write into the map. */
  lemma RoutesMatchWrites(ps: seq<Parameter>, es: seq<Effect>, multipart: bool, env: Env)
    requires FormFilesNeedMultipart(ps, multipart)
    requires |es| == |ps| && forall i :: 0 <= i < |ps| ==> Route(ps[i], multipart, env) == Success(es[i])
    ensures WritesMatch(ps, es, multipart)
  {
  }

  /** Headers and query pairs are appended in parameter order; method, URL, cookies and credentials are untouched. */
  lemma AssembleAppendsInOrder(builder: Request, isForm: bool, isMultipart: bool, ps: seq<Parameter>, env: Env)
    requires FormFilesNeedMultipart(ps, isMultipart)
    ensures var r := Assemble(builder, isForm, isMultipart, ps, env);
      r.Success? ==>
        && r.value.headers == builder.headers + HeadersOf(ps)
        && r.value.query == builder.query + QueriesOf(ps)
        && r.value.verb == builder.verb && r.value.url == builder.url
        && r.value.cookies == builder.cookies && r.value.credentials == builder.credentials
  {
    EffectsSucceed(ps, isMultipart, env);
    if Effects(ps, isMultipart, env).Success? {
      RoutesContribute(ps, Effects(ps, isMultipart, env).value, isMultipart, env);
      ApplyAllAppends(Start(builder, isMultipart), ps, Effects(ps, isMultipart, env).value, isMultipart, env);
    }
  }

  /**
   * Assembly fails exactly when some parameter fails, and then with the error
   * of the first one: no partial request is produced.
   */
  lemma AssembleFailsAtFirstError(builder: Request, isForm: bool, isMultipart: bool, ps: seq<Parameter>, env: Env)
    requires FormFilesNeedMultipart(ps, isMultipart)
    ensures var r := Assemble(builder, isForm, isMultipart, ps, env);
      && (r.Failure? <==> exists i :: 0 <= i < |ps| && Route(ps[i], isMultipart, env).Failure?)
      && (r.Failure? ==>
            exists i :: 0 <= i < |ps| && Route(ps[i], isMultipart, env) == Failure(r.error)
              && forall j :: 0 <= j < i ==> Route(ps[j], isMultipart, env).Success?)
  {
    EffectsSucceed(ps, isMultipart, env);
    EffectsFailFirst(ps, isMultipart, env);
  }

  /**
   * The body: in multipart mode the form of text fields and files, in order
   * (other data is not sent); otherwise no new body when no parameter is data,
   * and else the data map, form-encoded or JSON, holding each written key with
   * the value of its last writer.
   */
  lemma AssembleBody(builder: Request, isForm: bool, isMultipart: bool, ps: seq<Parameter>, env: Env)
    requires FormFilesNeedMultipart(ps, isMultipart)
    ensures var r := Assemble(builder, isForm, isMultipart, ps, env);
      r.Success? && isMultipart ==> r.value.body == MultipartBody(PartsOf(ps, env))
    ensures var r := Assemble(builder, isForm, isMultipart, ps, env);
      r.Success? && !isMultipart && (forall i :: 0 <= i < |ps| ==> !IsData(ps[i])) ==> r.value.body == builder.body
    ensures var r := Assemble(builder, isForm, isMultipart, ps, env);
      r.Success? && !isMultipart && (exists i :: 0 <= i < |ps| && IsData(ps[i])) ==>
        && (if isForm then r.value.body.FormBody? else r.value.body.JsonBody?)
        && KeysWritten(ps, false, r.value.body.fields)
        && forall i :: 0 <= i < |ps| && IsLastWriter(ps, false, i) ==>
             Route(ps[i], false, env) == Success(Insert(ps[i].key, r.value.body.fields[ps[i].key]))
  {
    EffectsSucceed(ps, isMultipart, env);
    if Effects(ps, isMultipart, env).Success? {
      var es := Effects(ps, isMultipart, env).value;
      var b := ApplyAll(Start(builder, isMultipart), es);
      RoutesContribute(ps, es, isMultipart, env);
      ApplyAllAppends(Start(builder, isMultipart), ps, es, isMultipart, env);
      if isMultipart {
        assert [] + PartsOf(ps, env) == PartsOf(ps, env);
      } else {
        RoutesMatchWrites(ps, es, false, env);
        ApplyAllKeys(Start(builder, false), ps, es, false);
        ApplyAllValues(Start(builder, false), ps, es, false);
        if exists i :: 0 <= i < |ps| && IsData(ps[i]) {
          var i :| 0 <= i < |ps| && IsData(ps[i]);
          assert InsertsInto(ps[i], false);
          assert ps[i].key in b.data;
        }
      }
    }
  }

  /**
   * Raw JSON that does not parse, such as `tags:=not-json`, aborts the whole
   * assembly with the JSON error, whatever parameters came before it.
   */
  lemma RawJsonThatDoesNotParse(builder: Request, isForm: bool, ps: seq<Parameter>, key: string, text: string, env: Env)
    requires forall i :: 0 <= i < |ps| ==> !IsFormFile(ps[i]) && Route(ps[i], false, env).Success?
    requires env.parseJson(text).Failure?
    ensures Assemble(builder, isForm, false, ps + [RawJsonData(key, text)], env) == Failure(SerdeJson(env.parseJson(text).error))
  {
    var qs := ps + [RawJsonData(key, text)];
    assert qs[..|ps|] == ps;
    EffectsSucceed(ps, false, env);
  }

  /**
   * `handle_parameters` as written: the body is attached and the function
   * returns inside the loop, after the first parameter.
   */
  function AssembleAsWritten(builder: Request, isForm: bool, isMultipart: bool, ps: seq<Parameter>, env: Env): Result<Request, Error>
    requires FormFilesNeedMultipart(ps, isMultipart)
  {
    if ps == [] then Success(builder)
    else
      match Route(ps[0], isMultipart, env)
      case Failure(e) => Failure(e)
      case Success(e) => Success(Finish(Apply(Start(builder, isMultipart), e), isForm))
  }

  /** As written, the second of two query parameters never reaches the request. */
  lemma AssembleAsWrittenDropsLaterParameters(env: Env)
    ensures var builder := NewRequest(Get, "http://localhost/");
      var ps := [Query("a", "1"), Query("b", "2")];
      && AssembleAsWritten(builder, false, false, ps, env) == Success(builder.(query := [("a", "1")]))
      && Assemble(builder, false, false, ps, env) == Success(builder.(query := [("a", "1"), ("b", "2")]))
  {
    var builder := NewRequest(Get, "http://localhost/");
    var ps := [Query("a", "1"), Query("b", "2")];
    var e0, e1 := AddQuery("a", "1"), AddQuery("b", "2");
    assert ps[..1] == [ps[0]] && [ps[0]][..0] == [];
    assert Route(ps[0], false, env) == Success(e0) && Route(ps[1], false, env) == Success(e1);
    assert Effects([], false, env) == Success([]);
    assert [] + [e0] == [e0] && [e0] + [e1] == [e0, e1];
    assert Effects([ps[0]], false, env) == Success([e0]);
    assert Effects(ps, false, env) == Success([e0, e1]);
    var start := Start(builder, false);
    assert [e0, e1][..1] == [e0] && [e0][..0] == [];
    var one := builder.(query := [("a", "1")]);
    var two := builder.(query := [("a", "1"), ("b", "2")]);
    assert [] + [("a", "1")] == [("a", "1")] && [("a", "1")] + [("b", "2")] == [("a", "1"), ("b", "2")];
    assert Apply(start, e0) == Builder(one, map[], None);
    assert Apply(Builder(one, map[], None), e1) == Builder(two, map[], None);
    assert ApplyAll(start, [e0]) == Apply(start, e0);
    assert ApplyAll(start, [e0, e1]) == Apply(Apply(start, e0), e1);
    assert Finish(Builder(one, map[], None), false) == one;
    assert Finish(Builder(two, map[], None), false) == two;
  }
}
