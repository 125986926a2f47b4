/**
 * What `loadRemoteUMD` promises its callers, stated over `Resolve` and
 * `Select`, with the scenarios that show its priority rules at work.
 */
module LoaderProperties {
  import opened Wrappers
  import opened Js
  import opened Globals
  import opened ExportPicker
  import opened Loader

  /** A failed fetch ends the load: how the payload would run plays no part and `window` is untouched. */
  lemma FailedFetchRunsNothing(url: string, f: FetchOutcome, i1: Interpreter, i2: Interpreter, t0: GlobalTable)
    requires !(f.Response? && IsOk(f.status))
    ensures Resolve(url, f, i1, t0) == Resolve(url, f, i2, t0)
    ensures Resolve(url, f, i1, t0).globals == t0
    ensures f.Response? ==> Resolve(url, f, i1, t0).result == Err(HttpError(f.status, url))
  {
  }

  /** A falsy wrapper result fails the load with the fixed eval message; no export is selected. */
  lemma FalsyWrapperResultStops(url: string, f: FetchOutcome, interp: Interpreter, t0: GlobalTable)
    requires FetchText(url, f).Ok?
    requires interp(FetchText(url, f).value, t0).Completed?
    requires !Truthy(interp(FetchText(url, f).value, t0).returned)
    ensures Resolve(url, f, interp, t0) == Outcome(Err(EvalFailure), interp(FetchText(url, f).value, t0).after)
    ensures Message(Resolve(url, f, interp, t0).result.error) == "Eval failure (see console)"
  {
  }

  /** When no well-known read throws, the earliest truthy well-known global is the export. */
  lemma SelectFirstTruthyPriority(before: seq<Name>, t: GlobalTable, i: nat)
    requires forall j :: 0 <= j < |Priority| ==> Read(t, Priority[j]).Got?
    requires i < |Priority| && Truthy(Read(t, Priority[i]).value)
    requires forall j :: 0 <= j < i ==> !Truthy(Read(t, Priority[j]).value)
    ensures Select(before, t) == Ok(Read(t, Priority[i]).value)
  {
    var pick := Pick(before, t.names, t);
    if pick.Some? && pick.value != "" && pick.value in Priority {
      var k :| 0 <= k < |Priority| && Priority[k] == pick.value;
      assert Read(t, Priority[k]).Got?;
    }
    var vs := Candidates(t, pick).value;
    FilterTruthyFirst(vs, i);
  }

  /** A well-known global whose getter throws fails the load, even after a truthy one. */
  lemma SelectPriorityThrows(before: seq<Name>, t: GlobalTable, i: nat, e: JsError)
    requires i < |Priority| && Read(t, Priority[i]) == Threw(e)
    requires forall j :: 0 <= j < i ==> Read(t, Priority[j]).Got?
    ensures Select(before, t) == Err(ReadThrew(e))
  {
    var r := ReadAll(t, Priority);
    assert r.Err?;
    var k :| 0 <= k < |Priority| && Read(t, Priority[k]) == Threw(r.error)
             && forall j :: 0 <= j < k ==> Read(t, Priority[j]).Got?;
    assert k == i;
  }

  /**
   * With no well-known name among the own names and every well-known read
   * falsy, the export is the value of the new global the fallback picked;
   * the load fails when there is none, or when it is named "" (a falsy pick).
   */
  lemma SelectFallback(before: seq<Name>, t: GlobalTable)
    requires forall j :: 0 <= j < |Priority| ==> Priority[j] !in t.names
    requires forall j :: 0 <= j < |Priority| ==> Read(t, Priority[j]).Got? && !Truthy(Read(t, Priority[j]).value)
    ensures var pick := Pick(before, t.names, t);
      Select(before, t) == if pick.Some? && pick.value != "" then Ok(Read(t, pick.value).value) else Err(NoUsableComponent)
    ensures Select(before, t).Ok? ==>
      exists k :: k in NewKeys(before, t.names) && k != "" && Usable(t, k) && Select(before, t).value == Read(t, k).value
  {
    var pick := Pick(before, t.names, t);
    var vs := Candidates(t, pick).value;
    if pick.Some? && pick.value != "" {
      assert pick.value !in Priority;
      FilterTruthyFirst(vs, |Priority|);
    } else {
      assert forall v :: v in vs ==> !Truthy(v);
    }
  }

  /**
   * The masking quirk: a well-known name that is present but falsy becomes
   * the pick, so no new global is ever considered and the load fails.
   */
  lemma FalsyPriorityMasksNewGlobals(before: seq<Name>, t: GlobalTable, i: nat)
    requires i < |Priority| && Priority[i] in t.names
    requires forall j :: 0 <= j < |Priority| ==> Read(t, Priority[j]).Got? && !Truthy(Read(t, Priority[j]).value)
    ensures Select(before, t) == Err(NoUsableComponent)
  {
    var p := FirstWhere(Priority, (k: Name) => k in t.names);
    assert p.Some?;
    var pick := Pick(before, t.names, t);
    assert pick == Some(Priority[p.value]);
    assert Read(t, pick.value).Got? && !Truthy(Read(t, pick.value).value);
    var c := Candidates(t, pick);
    assert ReadAll(t, Priority).Ok?;
    var vs := c.value;
    assert !Truthy(vs[|Priority|]);
    assert forall v :: v in vs ==> !Truthy(v);
    FilterTruthyNone(vs);
  }

  /** `window[k] = v` on a missing or plain data property: a new name joins the own names at the end. */
  function Assign(t: GlobalTable, k: Name, v: Value): (r: GlobalTable)
    ensures Read(r, k) == Got(v) && k in r.names
    ensures forall n :: n != k ==> Read(r, n) == Read(t, n)
    ensures r.names == if k in t.names then t.names else t.names + [k]
  {
    GlobalTable(if k in t.names then t.names else t.names + [k], t.slots[k := Data(v)])
  }

  /** The value `true` that the wrapper returns when the payload completes. */
  const True: Value := TruthyPrim(1)

  /** A payload that assigns one global and completes normally. */
  function Attaches(k: Name, v: Value): Interpreter {
    (code: string, t: GlobalTable) => Completed(True, Assign(t, k, v))
  }

  /** A payload that assigns one global and completes leads straight to the selection. */
  lemma ResolveAttaches(url: string, body: string, k: Name, v: Value, t0: GlobalTable)
    ensures Resolve(url, Response(200, body), Attaches(k, v), t0)
            == Outcome(Select(t0.names, Assign(t0, k, v)), Assign(t0, k, v))
  {
    assert Attaches(k, v)(body, t0) == Completed(True, Assign(t0, k, v));
  }

  /** Running a payload that defines a well-known global selects it, when no other well-known global is readable. */
  lemma AttachedPriorityGlobalIsSelected(before: seq<Name>, t0: GlobalTable, i: nat, v: Value)
    requires i < |Priority| && Truthy(v)
    requires forall j :: 0 <= j < |Priority| && j != i ==> Priority[j] !in t0.slots
    ensures Select(before, Assign(t0, Priority[i], v)) == Ok(v)
  {
    var t1 := Assign(t0, Priority[i], v);
    assert forall j :: 0 <= j < |Priority| && j != i ==> Priority[j] != Priority[i];
    SelectFirstTruthyPriority(before, t1, i);
  }

  /** `window.RemoteComponent = () => "hi"` gives that function (a well-known name). */
  lemma RemoteComponentExample(url: string, body: string, t0: GlobalTable)
    requires forall n :: n in Priority ==> n !in t0.slots
    ensures Resolve(url, Response(200, body), Attaches("RemoteComponent", Fn(1)), t0).result == Ok(Fn(1))
  {
    ResolveAttaches(url, body, "RemoteComponent", Fn(1), t0);
    AttachedPriorityGlobalIsSelected(t0.names, t0, 0, Fn(1));
  }

  /**
   * A payload that adds one new global holding an object, where no
   * well-known name exists, gives that object through the new-keys fallback,
   * unless the global is named "" and so is a falsy pick.
   */
  lemma AddedObjectGlobal(url: string, body: string, t0: GlobalTable, k: Name, id: nat)
    requires k !in Priority && k !in t0.names
    requires forall n :: n in Priority ==> n !in t0.names && n !in t0.slots
    ensures Resolve(url, Response(200, body), Attaches(k, Obj(id, false)), t0).result
            == if k != "" then Ok(Obj(id, false)) else Err(NoUsableComponent)
  {
    ResolveAttaches(url, body, k, Obj(id, false), t0);
    var t1 := Assign(t0, k, Obj(id, false));
    assert t1.names == t0.names + [k];
    NewKeysOfAdded(t0.names, k);
    PickFallbackFound(t0.names, t1.names, t1, 0);
    assert forall j :: 0 <= j < |Priority| ==> Read(t1, Priority[j]) == Got(Undefined);
    SelectFallback(t0.names, t1);
  }

  /** `window.Foo = {x: 1}` with no well-known name gives that object. */
  lemma PlainObjectExample(url: string, body: string, t0: GlobalTable)
    requires "Foo" !in t0.names
    requires forall n :: n in Priority ==> n !in t0.names && n !in t0.slots
    ensures Resolve(url, Response(200, body), Attaches("Foo", Obj(1, false)), t0).result == Ok(Obj(1, false))
  {
    AddedObjectGlobal(url, body, t0, "Foo", 1);
  }

  /**
   * `window.App = null; window.Widget = function () {}`: `App` is present, so
   * it is the pick, and its null value leaves no candidate, although the new
   * global `Widget` holds a function.
   */
  lemma FalsyPriorityExample(url: string, body: string)
    ensures var t1 := GlobalTable(["App", "Widget"], map["App" := Data(Null), "Widget" := Data(Fn(1))]);
      && "Widget" in NewKeys([], t1.names) && Usable(t1, "Widget")
      && Resolve(url, Response(200, body), (code: string, t: GlobalTable) => Completed(True, t1), GlobalTable([], map[])).result
         == Err(NoUsableComponent)
  {
    var t1 := GlobalTable(["App", "Widget"], map["App" := Data(Null), "Widget" := Data(Fn(1))]);
    FalsyPriorityMasksNewGlobals([], t1, 2);
  }

  /** `window[""] = {}`: the fallback picks the empty name, which `pick ? ... : null` treats as no pick. */
  lemma EmptyNameExample(url: string, body: string)
    ensures Resolve(url, Response(200, body), Attaches("", Obj(1, false)), GlobalTable([], map[])).result
            == Err(NoUsableComponent)
  {
    assert "" !in Priority;
    AddedObjectGlobal(url, body, GlobalTable([], map[]), "", 1);
  }

  /**
   * Loading twice shares `window`: an export that only the fallback found is
   * not new on the second load, so a reload of the same bundle fails.
   */
  lemma ReloadLosesFallbackExport(url: string, body: string)
    ensures var payload := Attaches("Widget", Obj(1, false));
      var first := Resolve(url, Response(200, body), payload, GlobalTable([], map[]));
      var second := Resolve(url, Response(200, body), payload, first.globals);
      first.result == Ok(Obj(1, false)) && second.result == Err(NoUsableComponent)
  {
    var t0 := GlobalTable([], map[]);
    AddedObjectGlobal(url, body, t0, "Widget", 1);
    var t1 := Assign(t0, "Widget", Obj(1, false));
    ResolveAttaches(url, body, "Widget", Obj(1, false), t1);
    var t2 := Assign(t1, "Widget", Obj(1, false));
    assert t1.names == ["Widget"] && t2.names == ["Widget"];
    NewKeysNone(["Widget"], ["Widget"]);
    SelectFallback(t1.names, t2);
  }

  /**
   * The bundle attaches itself as `HelloComponent`, a well-known name, so
   * the first load and every reload return it.
   */
  lemma ReloadKeepsBundleExport(url: string, body: string, t0: GlobalTable, id: nat)
    requires forall n :: n in Priority ==> n !in t0.slots
    ensures var payload := Attaches("HelloComponent", Fn(id));
      var first := Resolve(url, Response(200, body), payload, t0);
      var second := Resolve(url, Response(200, body), payload, first.globals);
      first.result == Ok(Fn(id)) && second.result == Ok(Fn(id))
  {
    assert Priority[3] == "HelloComponent";
    ResolveAttaches(url, body, "HelloComponent", Fn(id), t0);
    AttachedPriorityGlobalIsSelected(t0.names, t0, 3, Fn(id));
    var t1 := Assign(t0, "HelloComponent", Fn(id));
    ResolveAttaches(url, body, "HelloComponent", Fn(id), t1);
    AttachedPriorityGlobalIsSelected(t1.names, t1, 3, Fn(id));
  }
}
