/**
 * `pickLikelyExport`: guesses which global a UMD bundle attached its export to,
 * from the own-property names of `window` before and after the bundle ran.
 */
module ExportPicker {
  import opened Wrappers
  import opened Js
  import opened Globals

  /** The well-known export names, tried in this order. */
  const Priority: seq<Name> := ["RemoteComponent", "default", "App", "HelloComponent", "Component"]

  /** `afterKeys.filter(k => !beforeKeys.includes(k))`. */
  function NewKeys(before: seq<Name>, after: seq<Name>): (r: seq<Name>)
    ensures |r| <= |after|
    ensures forall k :: k in r <==> k in after && k !in before
  {
    if after == [] then []
    else if after[0] in before then NewKeys(before, after[1..])
    else [after[0]] + NewKeys(before, after[1..])
  }

  /** Filtering keeps the order of `after`: it distributes over concatenation. */
  lemma {:induction false} NewKeysAppend(before: seq<Name>, a1: seq<Name>, a2: seq<Name>)
    ensures NewKeys(before, a1 + a2) == NewKeys(before, a1) + NewKeys(before, a2)
  {
    if a1 != [] {
      assert (a1 + a2)[0] == a1[0] && (a1 + a2)[1..] == a1[1..] + a2;
      NewKeysAppend(before, a1[1..], a2);
      if a1[0] !in before {
        assert [a1[0]] + (NewKeys(before, a1[1..]) + NewKeys(before, a2))
            == ([a1[0]] + NewKeys(before, a1[1..])) + NewKeys(before, a2);
      }
    } else {
      assert a1 + a2 == a2;
    }
  }

  /** A single name is kept exactly when it was not there before. */
  lemma NewKeysSingle(before: seq<Name>, k: Name)
    ensures NewKeys(before, [k]) == if k in before then [] else [k]
  {
    assert [k][1..] == [];
  }

  /** Nothing is new when every after-name was there before. */
  lemma {:induction false} NewKeysNone(before: seq<Name>, after: seq<Name>)
    requires forall k :: k in after ==> k in before
    ensures NewKeys(before, after) == []
  {
    if after != [] {
      NewKeysNone(before, after[1..]);
    }
  }

  /** A payload that adds one name makes exactly that name new. */
  lemma NewKeysOfAdded(before: seq<Name>, k: Name)
    requires k !in before
    ensures NewKeys(before, before + [k]) == [k]
  {
    NewKeysAppend(before, before, [k]);
    NewKeysNone(before, before);
    NewKeysSingle(before, k);
  }

  /** The first index at which `p` holds, if any. */
  function FirstWhere<T>(s: seq<T>, p: T -> bool): (r: Option<nat>)
    ensures r.Some? ==> r.value < |s| && p(s[r.value])
    ensures r.Some? ==> forall j :: 0 <= j < r.value ==> !p(s[j])
    ensures r.None? <==> forall j :: 0 <= j < |s| ==> !p(s[j])
  {
    if s == [] then None
    else if p(s[0]) then Some(0)
    else match FirstWhere(s[1..], p)
      case None => None
      case Some(i) => Some(i + 1)
  }

  /** The fallback's test: the read does not throw and gives a function or a non-null object. */
  predicate Usable(t: GlobalTable, k: Name) {
    Read(t, k).Got? && FunctionOrObject(Read(t, k).value)
  }

  /**
   * The name `pickLikelyExport` returns: the first well-known name present
   * among the after-names, else the first new name whose value is usable.
   */
  function Pick(before: seq<Name>, after: seq<Name>, t: GlobalTable): (r: Option<Name>)
    ensures r.Some? ==> r.value in after
    ensures r.Some? && r.value !in Priority ==> r.value !in before && Usable(t, r.value)
  {
    match FirstWhere(Priority, (k: Name) => k in after)
    case Some(i) => Some(Priority[i])
    case None =>
      var added := NewKeys(before, after);
      match FirstWhere(added, (k: Name) => Usable(t, k))
      case Some(i) => Some(added[i])
      case None => None
  }

  /**
   * The loops of `pickLikelyExport`, reading `window` as it is after the
   * payload ran; a throwing read is caught and the name skipped.
   */
  method PickLikelyExport(w: Window, beforeKeys: seq<Name>, afterKeys: seq<Name>) returns (pick: Option<Name>)
    ensures pick == Pick(beforeKeys, afterKeys, w.Snapshot())
  {
    var newKeys := NewKeys(beforeKeys, afterKeys);
    var i := 0;
    while i < |Priority|
      invariant 0 <= i <= |Priority|
      invariant forall j :: 0 <= j < i ==> Priority[j] !in afterKeys
    {
      if Priority[i] in afterKeys {
        return Some(Priority[i]);
      }
      i := i + 1;
    }
    var n := 0;
    while n < |newKeys|
      invariant 0 <= n <= |newKeys|
      invariant forall j :: 0 <= j < n ==> !Usable(w.Snapshot(), newKeys[j])
    {
      var k := newKeys[n];
      match Read(w.Snapshot(), k) {
        case Threw(_) =>
        case Got(v) =>
          if FunctionOrObject(v) {
            return Some(k);
          }
      }
      n := n + 1;
    }
    return None;
  }

  /**
   * A well-known name present after evaluation wins, the earliest in priority
   * order, whatever its value and whether or not it is new.
   */
  lemma PickPrefersPriority(before: seq<Name>, after: seq<Name>, t: GlobalTable, i: nat)
    requires i < |Priority| && Priority[i] in after
    requires forall j :: 0 <= j < i ==> Priority[j] !in after
    ensures Pick(before, after, t) == Some(Priority[i])
  {
    var r := FirstWhere(Priority, (k: Name) => k in after);
    assert r.Some?;
    assert r.value == i;
  }

  /**
   * With no well-known name present, the pick is the first new name whose
   * read succeeds with a function or object.
   */
  lemma PickFallbackFound(before: seq<Name>, after: seq<Name>, t: GlobalTable, i: nat)
    requires forall j :: 0 <= j < |Priority| ==> Priority[j] !in after
    requires i < |NewKeys(before, after)| && Usable(t, NewKeys(before, after)[i])
    requires forall j :: 0 <= j < i ==> !Usable(t, NewKeys(before, after)[j])
    ensures Pick(before, after, t) == Some(NewKeys(before, after)[i])
  {
    var p := FirstWhere(Priority, (k: Name) => k in after);
    assert p.None?;
    var q := FirstWhere(NewKeys(before, after), (k: Name) => Usable(t, k));
    assert q == Some(i);
  }

  /** With no well-known name present and no new name usable, nothing is picked. */
  lemma PickFallbackNone(before: seq<Name>, after: seq<Name>, t: GlobalTable)
    requires forall j :: 0 <= j < |Priority| ==> Priority[j] !in after
    requires forall k :: k in NewKeys(before, after) ==> !Usable(t, k)
    ensures Pick(before, after, t) == None
  {
    var p := FirstWhere(Priority, (k: Name) => k in after);
    assert p.None?;
    var added := NewKeys(before, after);
    assert forall j :: 0 <= j < |added| ==> !Usable(t, added[j]);
  }

  /** When a well-known name is present, the names seen before do not matter. */
  lemma PickIgnoresBefore(b1: seq<Name>, b2: seq<Name>, after: seq<Name>, t: GlobalTable)
    requires exists j :: 0 <= j < |Priority| && Priority[j] in after
    ensures Pick(b1, after, t) == Pick(b2, after, t)
  {
    var r := FirstWhere(Priority, (k: Name) => k in after);
    assert r.Some?;
  }
}
