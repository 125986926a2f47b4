/**
 * What the widget shows: the loading shell, then the loaded export turned
 * into an element, or an error view carrying the failure message. The
 * initial load in `boot` and the `reload` debug entry do the same.
 */
module Render {
  import opened Wrappers
  import opened Js
  import opened Globals
  import opened Loader

  /** What the React root renders. */
  datatype View =
    | Loading                    // the shell's "loading remote component" placeholder
    | Created(component: Value)  // React.createElement(Remote)
    | AsIs(element: Value)       // an export that already is a React element
    | InvalidExport              // a div reading "Invalid UMD component export"
    | ErrorPanel(text: string)   // ErrorView(React, text)

  const FailurePrefix: string := "Failed to load remote component: "

  /**
   * The element built from a loaded export, tested in the source's order:
   * a function is instantiated, a valid element kept, anything else invalid.
   */
  function ElementFor(remote: Value): (v: View)
    ensures v.Created? || v.AsIs? || v.InvalidExport?
    ensures v.Created? <==> remote.Fn?
    ensures v.AsIs? <==> remote.Obj? && remote.isElement
    ensures v.Created? ==> v.component == remote
    ensures v.AsIs? ==> v.element == remote
  {
    if remote.Fn? then Created(remote)
    else if remote.Obj? && remote.isElement then AsIs(remote)
    else InvalidExport
  }

  /** The view for the outcome of a load: the try branch or the catch branch. */
  function Present(r: Result<Value, LoadError>): (v: View)
    ensures v != Loading
    ensures v.Created? <==> r.Ok? && r.value.Fn?
    ensures v.Created? ==> r == Ok(v.component)
    ensures v.AsIs? <==> r.Ok? && r.value.Obj? && r.value.isElement
    ensures v.AsIs? ==> r == Ok(v.element)
    ensures v.InvalidExport? <==> r.Ok? && !r.value.Fn? && !(r.value.Obj? && r.value.isElement)
    ensures v.ErrorPanel? <==> r.Err?
    ensures r.Err? ==> v.text == FailurePrefix + Message(r.error)
  {
    match r
    case Ok(remote) => ElementFor(remote)
    case Err(e) => ErrorPanel(FailurePrefix + Message(e))
  }

  /**
   * The classification of a load's outcome is exhaustive and keeps the loaded
   * value: a function is instantiated, a valid element is shown as it is, any
   * other export (never null, undefined or another falsy value, since the
   * loader only returns truthy values) is reported invalid, and every failure
   * becomes an error view carrying its message.
   */
  lemma PresentOfLoad(url: string, f: FetchOutcome, interp: Interpreter, t0: GlobalTable)
    ensures var r := Resolve(url, f, interp, t0).result; var v := Present(r);
      && v != Loading
      && (v.Created? <==> r.Ok? && r.value.Fn?)
      && (v.Created? ==> r == Ok(v.component))
      && (v.AsIs? <==> r.Ok? && r.value.Obj? && r.value.isElement)
      && (v.AsIs? ==> r == Ok(v.element))
      && (v.InvalidExport? <==> r.Ok? && (r.value.TruthyPrim? || (r.value.Obj? && !r.value.isElement)))
      && (v.ErrorPanel? <==> r.Err?)
      && (r.Err? ==> v.text == FailurePrefix + Message(r.error))
  {
  }

  /** A 404 for the bundle shows the status and the URL. */
  lemma NotFoundView(url: string, body: string, interp: Interpreter, t0: GlobalTable)
    ensures Present(Resolve(url, Response(404, body), interp, t0).result)
            == ErrorPanel("Failed to load remote component: HTTP 404 for " + url)
  {
    assert Decimal(4) == "4";
    assert Decimal(40) == Decimal(4) + "0";
    assert Decimal(404) == "404" by {
      assert Decimal(404) == Decimal(40) + "4";
    }
    assert Resolve(url, Response(404, body), interp, t0).result == Err(HttpError(404, url));
    assert FailurePrefix + ("HTTP " + "404" + " for " + url) == "Failed to load remote component: HTTP 404 for " + url;
  }

  /** The React root, rendered into the shadow host's mount node. */
  class Root {
    var shown: View

    /** `createRoot(mount)` followed by rendering the loading shell. */
    constructor ()
      ensures shown == Loading
    {
      shown := Loading;
    }
  }

  /** The initial load in `boot`, once React and the shadow host are in place. */
  method Boot(w: Window, url: string, f: FetchOutcome, interp: Interpreter) returns (root: Root)
    modifies w
    ensures fresh(root)
    ensures root.shown == Present(Resolve(url, f, interp, old(w.Snapshot())).result)
    ensures w.Snapshot() == Resolve(url, f, interp, old(w.Snapshot())).globals
  {
    root := new Root();
    var r := LoadRemoteUMD(w, url, f, interp);
    match r {
      case Ok(remote) => root.shown := ElementFor(remote);
      case Err(e) => root.shown := ErrorPanel(FailurePrefix + Message(e));
    }
  }

  /** `window.__shadowUmd.reload()`: a fresh load rendered into the same root. */
  method Reload(root: Root, w: Window, url: string, f: FetchOutcome, interp: Interpreter)
    modifies root, w
    ensures root.shown == Present(Resolve(url, f, interp, old(w.Snapshot())).result)
    ensures w.Snapshot() == Resolve(url, f, interp, old(w.Snapshot())).globals
  {
    var r := LoadRemoteUMD(w, url, f, interp);
    match r {
      case Ok(remote) => root.shown := ElementFor(remote);
      case Err(e) => root.shown := ErrorPanel(FailurePrefix + Message(e));
    }
  }
}
