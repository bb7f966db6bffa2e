/** The compound input box (components/MoleculeSearch.tsx): a comma-separated query is
    cut into identifiers, each is resolved in turn and every resolved molecule is handed
    to the workspace's addReactant. */
module MoleculeSearch {
  import opened Types
  import opened Text
  import opened PubChem
  import Workspace

  /** The prefix of the message listing the identifiers that did not resolve. */
  const FailurePrefix: string := "Failed to resolve: "

  /** A non-empty string with no blank at either end. */
  predicate Trimmed(s: string) {
    s != [] && !IsWhitespace(s[0]) && !IsWhitespace(s[|s| - 1])
  }

  /** Identifiers as the search box produces them: trimmed, non-empty, comma-free. */
  predicate WellFormedIds(ids: seq<string>) {
    forall i | 0 <= i < |ids| :: Trimmed(ids[i]) && ',' !in ids[i]
  }

  /** `.map(id => id.trim()).filter(id => id.length > 0)`. */
  function TrimmedPieces(pieces: seq<string>): (r: seq<string>)
    ensures |r| <= |pieces|
    decreases |pieces|
  {
    if pieces == [] then []
    else
      var t := Trim(pieces[0]);
      (if t == [] then [] else [t]) + TrimmedPieces(pieces[1..])
  }

  /** Trimming never brings in a comma. */
  lemma TrimKeepsCommaOut(p: string)
    requires ',' !in p
    ensures ',' !in Trim(p)
  {
    var t := Trim(p);
    assert forall k | 0 <= k < |t| :: t[k] == p[TrimOffset(p) + k];
  }

  /** Pieces that hold no comma give well-formed identifiers. */
  lemma {:induction false} TrimmedPiecesWellFormed(pieces: seq<string>)
    requires forall i | 0 <= i < |pieces| :: ',' !in pieces[i]
    ensures WellFormedIds(TrimmedPieces(pieces))
    decreases |pieces|
  {
    if pieces != [] {
      TrimKeepsCommaOut(pieces[0]);
      TrimmedPiecesWellFormed(pieces[1..]);
    }
  }

  /** The identifiers a query stands for, in the order they were typed. */
  function Identifiers(query: string): (ids: seq<string>)
    ensures WellFormedIds(ids)
    ensures AllWhitespace(query) ==> ids == []
  {
    var pieces := Split(Trim(query), ',');
    TrimmedPiecesWellFormed(pieces);
    TrimmedPieces(pieces)
  }

  /** A blank prefix in front of a trimmed string is exactly what trim() removes. */
  lemma TrimBlankPrefix(w: string, x: string)
    requires AllWhitespace(w) && Trimmed(x)
    ensures Trim(w + x) == x
  {
    var s := w + x;
    assert forall k | 0 <= k < |w| :: s[k] == w[k];
    assert s[|w|] == x[0];
    assert LeadingBlanks(s) == |w|;
    var r := Trim(s);
    assert s[|s| - 1] == x[|x| - 1];
    assert |w| + |r| == |s|;
    assert r == s[|w|..];
  }

  lemma CommaFreeConcat(a: string, b: string)
    requires ',' !in a && ',' !in b
    ensures ',' !in a + b
  {
    assert forall k | 0 <= k < |a + b| :: (a + b)[k] == (if k < |a| then a[k] else b[k - |a|]);
  }

  /** One non-blank piece at the front of the list contributes its trimmed self. */
  lemma TrimmedPiecesCons(p: string, ps: seq<string>)
    requires Trim(p) != []
    ensures TrimmedPieces([p] + ps) == [Trim(p)] + TrimmedPieces(ps)
  {
    assert ([p] + ps)[1..] == ps;
  }

  lemma JoinUnfold(ids: seq<string>)
    requires |ids| >= 2
    ensures Join(ids, ", ") == ids[0] + [','] + (" " + Join(ids[1..], ", "))
  {
  }

  /** Typing identifiers separated by ", " (the way the failure message lists them) gives
      back exactly those identifiers. (No identifiers give the empty query, which
      Identifiers already maps to none.) */
  lemma IdentifiersOfJoin(ids: seq<string>)
    requires ids != []
    requires WellFormedIds(ids)
    ensures Identifiers(Join(ids, ", ")) == ids
  {
    PiecesOfJoin(ids);
    JoinTrimsToItself(ids);
    IdentifiersOfTrimmed(Join(ids, ", "));
  }

  /** A query with no blank ends is split as it stands. */
  lemma IdentifiersOfTrimmed(q: string)
    requires Trim(q) == q
    ensures Identifiers(q) == TrimmedPieces(Split(q, ','))
  {
  }

  lemma JoinTrimsToItself(ids: seq<string>)
    requires ids != []
    requires WellFormedIds(ids)
    ensures Trim(Join(ids, ", ")) == Join(ids, ", ")
  {
    var q := Join(ids, ", ");
    JoinTrimmed(ids);
    TrimBlankPrefix([], q);
    assert [] + q == q;
  }

  lemma PiecesOfJoin(ids: seq<string>)
    requires ids != []
    requires WellFormedIds(ids)
    ensures TrimmedPieces(Split(Join(ids, ", "), ',')) == ids
  {
    PiecesOfSpacedJoin([], ids);
    assert [] + Join(ids, ", ") == Join(ids, ", ");
  }

  /** A ", "-joined list of trimmed identifiers is itself trimmed. */
  lemma {:induction false} JoinTrimmed(ids: seq<string>)
    requires |ids| >= 1
    requires forall i | 0 <= i < |ids| :: Trimmed(ids[i])
    ensures Trimmed(Join(ids, ", "))
    decreases |ids|
  {
    if |ids| > 1 {
      JoinTrimmed(ids[1..]);
      var rest := Join(ids[1..], ", ");
      assert Join(ids, ", ") == ids[0] + ", " + rest;
    }
  }

  /** The induction behind IdentifiersOfJoin: a blank, comma-free lead-in before the list
      is dropped with the surrounding blanks of the first piece. */
  lemma {:induction false} PiecesOfSpacedJoin(w: string, ids: seq<string>)
    requires AllWhitespace(w) && ',' !in w
    requires |ids| >= 1
    requires WellFormedIds(ids)
    ensures TrimmedPieces(Split(w + Join(ids, ", "), ',')) == ids
    decreases |ids|
  {
    if |ids| == 1 {
      FirstPiece(w, ids);
      assert w + Join(ids, ", ") == w + ids[0];
      SplitWithoutSeparator(w + ids[0], ',');
      TrimmedPiecesCons(w + ids[0], []);
      HeadAndTail(ids);
    } else {
      var rest := Split(" " + Join(ids[1..], ", "), ',');
      PiecesOfSpacedJoin(" ", ids[1..]);
      SplitSpacedJoin(w, ids);
      FirstPiece(w, ids);
      TrimmedPiecesCons(w + ids[0], rest);
      HeadAndTail(ids);
    }
  }

  /** Sequence helper for PiecesOfSpacedJoin: a non-empty list is its head before its
      tail. Kept as a lemma so that the fact enters that proof only where it is used. */
  lemma HeadAndTail<T>(s: seq<T>)
    requires |s| >= 1
    ensures [s[0]] + s[1..] == s
  {
  }

  /** The first piece, with its lead-in, holds no comma and trims to the first identifier. */
  lemma FirstPiece(w: string, ids: seq<string>)
    requires AllWhitespace(w) && ',' !in w
    requires |ids| >= 1 && WellFormedIds(ids)
    ensures ',' !in w + ids[0] && Trim(w + ids[0]) == ids[0]
  {
    CommaFreeConcat(w, ids[0]);
    TrimBlankPrefix(w, ids[0]);
  }

  /** Splitting a lead-in and a ", "-list of two or more cuts off the first piece. */
  lemma SplitSpacedJoin(w: string, ids: seq<string>)
    requires AllWhitespace(w) && ',' !in w
    requires |ids| >= 2 && WellFormedIds(ids)
    ensures Split(w + Join(ids, ", "), ',') == [w + ids[0]] + Split(" " + Join(ids[1..], ", "), ',')
  {
    var tail := " " + Join(ids[1..], ", ");
    FirstPiece(w, ids);
    JoinUnfold(ids);
    assert w + Join(ids, ", ") == (w + ids[0]) + [','] + tail;
    SplitAfterPiece(w + ids[0], ',', tail);
  }

  /** The molecules the identifiers resolve to, in order; failures are skipped. */
  function Found(ids: seq<string>, db: Database): seq<Molecule>
    decreases |ids|
  {
    if ids == [] then []
    else
      var prev := Found(ids[..|ids| - 1], db);
      match Resolve(ids[|ids| - 1], db).molecule
      case Some(m) => prev + [m]
      case None => prev
  }

  /** The identifiers that resolve to null, in order. */
  function Failed(ids: seq<string>, db: Database): (r: seq<string>)
    ensures |Found(ids, db)| + |r| == |ids|
    ensures forall i | 0 <= i < |r| :: Resolve(r[i], db).molecule.None?
    decreases |ids|
  {
    if ids == [] then []
    else
      var prev := Failed(ids[..|ids| - 1], db);
      if Resolve(ids[|ids| - 1], db).molecule.None? then prev + [ids[|ids| - 1]] else prev
  }

  /** The failed identifiers are among the identifiers, so a query's failures are well
      formed and the failure message can be read back (FailureMessageLists). */
  lemma {:induction false} FailedWellFormed(ids: seq<string>, db: Database)
    requires WellFormedIds(ids)
    ensures WellFormedIds(Failed(ids, db))
    ensures forall i | 0 <= i < |Failed(ids, db)| :: Failed(ids, db)[i] in ids
    decreases |ids|
  {
    if ids != [] {
      var init := ids[..|ids| - 1];
      assert forall i | 0 <= i < |init| :: init[i] == ids[i];
      FailedWellFormed(init, db);
    }
  }

  /** The failures of a search-box query satisfy FailureMessageLists' precondition. */
  lemma QueryFailuresWellFormed(query: string, db: Database)
    ensures WellFormedIds(Failed(Identifiers(query), db))
  {
    FailedWellFormed(Identifiers(query), db);
  }

  /** Resolving one more identifier extends exactly one of the two lists. */
  lemma ResolveStep(ids: seq<string>, i: nat, db: Database)
    requires i < |ids|
    ensures Resolve(ids[i], db).molecule.Some? ==>
      && Found(ids[..i + 1], db) == Found(ids[..i], db) + [Resolve(ids[i], db).molecule.value]
      && Failed(ids[..i + 1], db) == Failed(ids[..i], db)
    ensures Resolve(ids[i], db).molecule.None? ==>
      && Found(ids[..i + 1], db) == Found(ids[..i], db)
      && Failed(ids[..i + 1], db) == Failed(ids[..i], db) + [ids[i]]
  {
    assert ids[..i + 1][..i] == ids[..i];
  }

  /** The message shown after a search: empty when everything resolved. */
  function FailureMessage(failed: seq<string>): (msg: string)
    ensures msg == "" <==> failed == []
  {
    if failed == [] then "" else FailurePrefix + Join(failed, ", ")
  }

  /** The failure message names exactly the failed identifiers: reading the list back
      out of the message gives them again. */
  lemma FailureMessageLists(failed: seq<string>)
    requires failed != []
    requires WellFormedIds(failed)
    ensures Identifiers(FailureMessage(failed)[|FailurePrefix|..]) == failed
  {
    assert FailureMessage(failed)[|FailurePrefix|..] == Join(failed, ", ");
    IdentifiersOfJoin(failed);
  }

  class SearchBox {
    var query: string
    var loading: bool
    var error: string

    constructor ()
      ensures query == "" && !loading && error == ""
    {
      query := "";
      loading := false;
      error := "";
    }

    /** The input's change handler. */
    method Edit(text: string)
      modifies this`query
      ensures query == text
    {
      query := text;
    }

    /** The submit handler. A blank query does nothing. Otherwise every identifier is
        resolved in turn; each molecule found goes to the workspace's addReactant (which
        may still drop it as a duplicate: `addedCount` counts resolutions, not additions);
        the failures are listed in the error, and the query is cleared only when
        something resolved and nothing failed. */
    method HandleSearch(db: Database, ws: Workspace.Workspace) returns (failed: seq<string>, addedCount: nat)
      modifies this, ws`reactants
      ensures AllWhitespace(old(query)) ==>
        && query == old(query) && loading == old(loading) && error == old(error)
        && ws.reactants == old(ws.reactants) && failed == [] && addedCount == 0
      ensures !AllWhitespace(old(query)) ==>
        var ids := Identifiers(old(query));
        && failed == Failed(ids, db)
        && addedCount == |Found(ids, db)|
        && ws.reactants == Workspace.ReactantsAfter(old(ws.reactants), Found(ids, db))
        && error == FailureMessage(failed)
        && query == (if addedCount > 0 && failed == [] then "" else old(query))
        && !loading
    {
      failed, addedCount := [], 0;
      var rawInput := Trim(query);
      if rawInput == [] {
        return;
      }
      loading := true;
      error := "";
      var identifiers := TrimmedPieces(Split(rawInput, ','));
      failed, addedCount := AddEach(identifiers, db, ws);
      if |failed| > 0 {
        error := FailurePrefix + Join(failed, ", ");
      }
      if addedCount > 0 && |failed| == 0 {
        query := "";
      }
      loading := false;
    }
  }

  /** The loop of the submit handler: resolve each identifier, hand each molecule found to
      addReactant, collect the identifiers that failed. */
  method AddEach(identifiers: seq<string>, db: Database, ws: Workspace.Workspace)
    returns (failed: seq<string>, addedCount: nat)
    modifies ws`reactants
    ensures failed == Failed(identifiers, db)
    ensures addedCount == |Found(identifiers, db)|
    ensures ws.reactants == Workspace.ReactantsAfter(old(ws.reactants), Found(identifiers, db))
  {
    failed, addedCount := [], 0;
    ghost var start := ws.reactants;
    var i := 0;
    while i < |identifiers|
      invariant 0 <= i <= |identifiers|
      invariant failed == Failed(identifiers[..i], db)
      invariant addedCount == |Found(identifiers[..i], db)|
      invariant ws.reactants == Workspace.ReactantsAfter(start, Found(identifiers[..i], db))
    {
      var id := identifiers[i];
      var result, _ := FetchMoleculeByIdentifier(id, db);
      assert result == Resolve(id, db).molecule;
      ResolveStep(identifiers, i, db);
      ghost var found := Found(identifiers[..i], db);
      if result.Some? {
        Workspace.ReactantsAfterStep(start, found, result.value);
        ws.AddReactant(result.value);
        assert ws.reactants == Workspace.ReactantsAfter(start, found + [result.value]);
        addedCount := addedCount + 1;
      } else {
        failed := failed + [id];
      }
      i := i + 1;
    }
    assert identifiers[..i] == identifiers;
  }
}
