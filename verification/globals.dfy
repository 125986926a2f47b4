/**
 * The page's global object (`window`) as the loader sees it: the ordered list
 * that `Object.getOwnPropertyNames(window)` returns, and what reading each name gives.
 */
module Globals {
  import opened Js

  type Name = string

  /** A property of `window`: a plain value, or an accessor whose getter throws. */
  datatype Binding = Data(value: Value) | ThrowingGetter(error: JsError)

  /** The outcome of evaluating `window[k]`. */
  datatype ReadResult = Got(value: Value) | Threw(error: JsError)

  /**
   * A snapshot of the global object. `names` is the own-property order;
   * `slots` holds every readable property, inherited ones included, so a
   * name may be readable without being an own name.
   */
  datatype GlobalTable = GlobalTable(names: seq<Name>, slots: map<Name, Binding>)

  /** `window[k]`: a missing property reads as `undefined`. */
  function Read(t: GlobalTable, k: Name): (r: ReadResult)
    ensures k !in t.slots ==> r == Got(Undefined)
    ensures r.Threw? <==> k in t.slots && t.slots[k].ThrowingGetter?
  {
    if k !in t.slots then Got(Undefined)
    else match t.slots[k]
      case Data(v) => Got(v)
      case ThrowingGetter(e) => Threw(e)
  }

  /**
   * What running the payload does, as far as the loader can observe it:
   * `new Function(...)` either rejects the text (a `SyntaxError`), or the
   * wrapper runs and leaves the globals changed. The call then either returns
   * a value (`true` normally, `false` when the payload threw inside the `try`)
   * or itself throws: the `console.error` in the `catch` may have been
   * replaced by one that throws, or the payload text may close the `try`
   * early and throw outside it.
   */
  datatype EvalOutcome =
    | Completed(returned: Value, after: GlobalTable)
    | WrapperThrew(error: JsError, after: GlobalTable)
    | ParseFailed(error: JsError)

  /** The semantics of executing a payload text against the current globals. */
  type Interpreter = (string, GlobalTable) -> EvalOutcome

  /** `window` itself: its bindings are changed in place by the executed payload. */
  class Window {
    var names: seq<Name>
    var slots: map<Name, Binding>

    constructor (names0: seq<Name>, slots0: map<Name, Binding>)
      ensures names == names0 && slots == slots0
    {
      names := names0;
      slots := slots0;
    }

    /** The current bindings as a value. */
    function Snapshot(): GlobalTable
      reads this
    {
      GlobalTable(names, slots)
    }

    /**
     * Builds the wrapper with `new Function('window', 'document', 'React', ...)`
     * around the payload text and calls it. The globals become whatever the
     * payload left behind, even when it threw part-way or the call itself
     * threw; a text that does not parse runs nothing.
     */
    method Execute(code: string, interp: Interpreter) returns (o: EvalOutcome)
      modifies this
      ensures o == interp(code, old(Snapshot()))
      ensures Snapshot() == (if o.ParseFailed? then old(Snapshot()) else o.after)
    {
      o := interp(code, Snapshot());
      if !o.ParseFailed? {
        names, slots := o.after.names, o.after.slots;
      }
    }
  }
}
