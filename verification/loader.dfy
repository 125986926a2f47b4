/**
 * `fetchText` and `loadRemoteUMD`: fetch the bundle text, run it against
 * `window`, pick the export and return the first truthy candidate.
 */
module Loader {
  import opened Wrappers
  import opened Js
  import opened Globals
  import opened ExportPicker

  /** What `fetch(url)` followed by `res.text()` yields. */
  datatype FetchOutcome =
    | Response(status: nat, body: string)  // `res.ok` holds for a status in 200..299
    | Rejected(error: JsError)             // a network failure: the promise rejects

  /** The errors `loadRemoteUMD` can throw. */
  datatype LoadError =
    | HttpError(status: nat, url: string)  // thrown by `fetchText` for a response that is not ok
    | FetchRejected(error: JsError)        // the rejection of `fetch` or `res.text()`, passed on
    | SyntaxFailure(error: JsError)        // `new Function` rejected the payload text
    | CallThrew(error: JsError)            // calling the wrapper threw, passed on
    | EvalFailure                          // the wrapper returned a falsy value
    | ReadThrew(error: JsError)            // reading a candidate global threw
    | NoUsableComponent                    // no candidate was truthy

  /** The text an error contributes to the error view: `e.message`, or `String(e)` when it is empty. */
  function Message(e: LoadError): (s: string)
    ensures e.HttpError? ==> s == "HTTP " + Decimal(e.status) + " for " + e.url
    ensures e == EvalFailure ==> s == "Eval failure (see console)"
    ensures e == NoUsableComponent ==> s == "UMD did not expose a usable component"
    ensures e.FetchRejected? || e.SyntaxFailure? || e.CallThrew? || e.ReadThrew? ==> s == ErrorText(e.error)
  {
    match e
    case HttpError(status, url) => "HTTP " + Decimal(status) + " for " + url
    case FetchRejected(err) => ErrorText(err)
    case SyntaxFailure(err) => ErrorText(err)
    case CallThrew(err) => ErrorText(err)
    case EvalFailure => "Eval failure (see console)"
    case ReadThrew(err) => ErrorText(err)
    case NoUsableComponent => "UMD did not expose a usable component"
  }

  predicate IsOk(status: nat) {
    200 <= status <= 299
  }

  /** `fetchText`: the body of an ok response, otherwise an error naming the status and the URL. */
  function FetchText(url: string, f: FetchOutcome): (r: Result<string, LoadError>)
    ensures r.Ok? <==> f.Response? && IsOk(f.status)
    ensures r.Ok? ==> r.value == f.body
    ensures f.Response? && !IsOk(f.status) ==>
      r.Err? && Message(r.error) == "HTTP " + Decimal(f.status) + " for " + url
    ensures f.Rejected? ==> r == Err(FetchRejected(f.error))
  {
    match f
    case Rejected(e) => Err(FetchRejected(e))
    case Response(status, body) =>
      if IsOk(status) then Ok(body) else Err(HttpError(status, url))
  }

  /** Reads the given globals in order; the first read that throws ends the evaluation. */
  function ReadAll(t: GlobalTable, ks: seq<Name>): (r: Result<seq<Value>, JsError>)
    ensures r.Ok? <==> forall i :: 0 <= i < |ks| ==> Read(t, ks[i]).Got?
    ensures r.Ok? ==> |r.value| == |ks| && forall i :: 0 <= i < |ks| ==> Read(t, ks[i]) == Got(r.value[i])
    ensures r.Err? ==> exists i :: 0 <= i < |ks| && Read(t, ks[i]) == Threw(r.error)
                                  && forall j :: 0 <= j < i ==> Read(t, ks[j]).Got?
  {
    if ks == [] then Ok([])
    else match Read(t, ks[0])
      case Threw(e) => Err(e)
      case Got(v) =>
        match ReadAll(t, ks[1..])
        case Err(e) =>
          assert forall i :: 1 <= i < |ks| ==> ks[i] == ks[1..][i - 1];
          Err(e)
        case Ok(vs) => Ok([v] + vs)
  }

  /**
   * The candidate array: `window.RemoteComponent`, `window.default`,
   * `window.App`, `window.HelloComponent`, `window.Component`, then
   * `pick ? window[pick] : null` (the empty name is falsy, so it gives null).
   */
  function Candidates(t: GlobalTable, pick: Option<Name>): (r: Result<seq<Value>, JsError>)
    ensures r.Ok? ==> |r.value| == |Priority| + 1
    ensures r.Ok? ==> forall i :: 0 <= i < |Priority| ==> Read(t, Priority[i]) == Got(r.value[i])
    ensures r.Ok? ==> if pick.Some? && pick.value != "" then Read(t, pick.value) == Got(r.value[|Priority|])
                      else r.value[|Priority|] == Null
    ensures r.Err? <==> ReadAll(t, Priority).Err? || (pick.Some? && pick.value != "" && Read(t, pick.value).Threw?)
  {
    match ReadAll(t, Priority)
    case Err(e) => Err(e)
    case Ok(vs) =>
      if pick.Some? && pick.value != "" then
        match Read(t, pick.value)
        case Threw(e) => Err(e)
        case Got(v) => Ok(vs + [v])
      else Ok(vs + [Null])
  }

  /** `filter(Boolean)`. */
  function FilterTruthy(vs: seq<Value>): (r: seq<Value>)
    ensures |r| <= |vs|
    ensures forall v :: v in r <==> v in vs && Truthy(v)
  {
    if vs == [] then []
    else if Truthy(vs[0]) then [vs[0]] + FilterTruthy(vs[1..])
    else FilterTruthy(vs[1..])
  }

  /** The survivor taken by `candidates[0]` is the earliest truthy candidate. */
  lemma {:induction false} FilterTruthyFirst(vs: seq<Value>, i: nat)
    requires i < |vs| && Truthy(vs[i])
    requires forall j :: 0 <= j < i ==> !Truthy(vs[j])
    ensures FilterTruthy(vs) != [] && FilterTruthy(vs)[0] == vs[i]
  {
    if i > 0 {
      assert !Truthy(vs[0]);
      assert forall j :: 0 <= j < i - 1 ==> vs[1..][j] == vs[j + 1];
      FilterTruthyFirst(vs[1..], i - 1);
    }
  }

  /** Nothing survives when no candidate is truthy. */
  lemma {:induction false} FilterTruthyNone(vs: seq<Value>)
    requires forall v :: v in vs ==> !Truthy(v)
    ensures FilterTruthy(vs) == []
  {
    if vs != [] {
      assert vs[0] in vs;
      FilterTruthyNone(vs[1..]);
    }
  }

  /** The selection after a successful evaluation: pick a name, read the candidates, keep the first truthy one. */
  function Select(beforeKeys: seq<Name>, t: GlobalTable): (r: Result<Value, LoadError>)
    ensures r.Ok? ==> Truthy(r.value)
    ensures r.Err? ==> r.error.ReadThrew? || r.error == NoUsableComponent
  {
    var pick := Pick(beforeKeys, t.names, t);
    match Candidates(t, pick)
    case Err(e) => Err(ReadThrew(e))
    case Ok(vs) =>
      var survivors := FilterTruthy(vs);
      if survivors == [] then Err(NoUsableComponent)
      else
        assert survivors[0] in survivors;
        Ok(survivors[0])
  }

  /** The result of one load and the globals it leaves behind. */
  datatype Outcome = Outcome(result: Result<Value, LoadError>, globals: GlobalTable)

  /** What `loadRemoteUMD(url)` does, given what the fetch yields and how the payload runs. */
  function Resolve(url: string, f: FetchOutcome, interp: Interpreter, t0: GlobalTable): (o: Outcome)
    ensures o.result.Ok? ==> Truthy(o.result.value)
    ensures FetchText(url, f).Err? ==> o.globals == t0 && o.result == Err(FetchText(url, f).error)
    ensures o.result.Err? && o.result.error.SyntaxFailure? ==> o.globals == t0
    ensures FetchText(url, f).Ok? && interp(FetchText(url, f).value, t0).ParseFailed? ==>
      o == Outcome(Err(SyntaxFailure(interp(FetchText(url, f).value, t0).error)), t0)
    ensures FetchText(url, f).Ok? && interp(FetchText(url, f).value, t0).WrapperThrew? ==>
      o == Outcome(Err(CallThrew(interp(FetchText(url, f).value, t0).error)), interp(FetchText(url, f).value, t0).after)
    ensures FetchText(url, f).Ok? && interp(FetchText(url, f).value, t0).Completed?
            && Truthy(interp(FetchText(url, f).value, t0).returned) ==>
      o == Outcome(Select(t0.names, interp(FetchText(url, f).value, t0).after), interp(FetchText(url, f).value, t0).after)
  {
    match FetchText(url, f)
    case Err(e) => Outcome(Err(e), t0)
    case Ok(code) =>
      match interp(code, t0)
      case ParseFailed(e) => Outcome(Err(SyntaxFailure(e)), t0)
      case WrapperThrew(e, t1) => Outcome(Err(CallThrew(e)), t1)
      case Completed(ret, t1) =>
        if !Truthy(ret) then Outcome(Err(EvalFailure), t1)
        else Outcome(Select(t0.names, t1), t1)
  }

  /** `loadRemoteUMD`: the result and the new state of `window` are those `Resolve` describes. */
  method LoadRemoteUMD(w: Window, url: string, f: FetchOutcome, interp: Interpreter) returns (r: Result<Value, LoadError>)
    modifies w
    ensures r == Resolve(url, f, interp, old(w.Snapshot())).result
    ensures w.Snapshot() == Resolve(url, f, interp, old(w.Snapshot())).globals
  {
    var fetched := FetchText(url, f);
    if fetched.Err? {
      return Err(fetched.error);
    }
    var code := fetched.value;
    var beforeKeys := w.names;
    var o := w.Execute(code, interp);
    if o.ParseFailed? {
      return Err(SyntaxFailure(o.error));
    }
    if o.WrapperThrew? {
      return Err(CallThrew(o.error));
    }
    if !Truthy(o.returned) {
      return Err(EvalFailure);
    }
    var afterKeys := w.names;
    var pick := PickLikelyExport(w, beforeKeys, afterKeys);
    var candidates := Candidates(w.Snapshot(), pick);
    if candidates.Err? {
      return Err(ReadThrew(candidates.error));
    }
    var survivors := FilterTruthy(candidates.value);
    if survivors == [] {
      return Err(NoUsableComponent);
    }
    return Ok(survivors[0]);
  }
}
