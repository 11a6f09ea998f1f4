/** The guardrails on a model verdict (guardrails.rs): retrieval before reasoning, and citations. */
module Guardrails {
  import opened Wrappers
  import opened Envelopes

  // ---- Retrieval before reasoning ----

  predicate Allowed(r: ToolCallRecord)
  {
    r.policyDecision == "allow"
  }

  predicate HasRetrievedEvidence(records: seq<ToolCallRecord>)
  {
    exists i | 0 <= i < |records| :: Allowed(records[i])
  }

  // ---- Citation tags ----

  const TAG := "[evidence:"

  /** Index of the first tag opening. */
  function FindTag(tag: string, s: string): (p: Option<nat>)
    ensures p.Some? ==> p.value + |tag| <= |s|
    decreases |s|
  {
    if |s| < |tag| then None
    else if tag <= s then Some(0)
    else if s == "" then None
    else match FindTag(tag, s[1..]) case Some(p) => Some(p + 1) case None => None
  }

  function FindClose(s: string): (p: Option<nat>)
    ensures p.Some? ==> p.value < |s|
  {
    if s == "" then None
    else if s[0] == ']' then Some(0)
    else match FindClose(s[1..]) case Some(p) => Some(p + 1) case None => None
  }

  function TrimLeft(ws: char -> bool, s: string): string
  {
    if s != "" && ws(s[0]) then TrimLeft(ws, s[1..]) else s
  }

  function TrimRight(ws: char -> bool, s: string): string
  {
    if s != "" && ws(s[|s| - 1]) then TrimRight(ws, s[..|s| - 1]) else s
  }

  function Trim(ws: char -> bool, s: string): string
  {
    TrimRight(ws, TrimLeft(ws, s))
  }

  function NonBlank(id: string): seq<string>
  {
    if id == "" then [] else [id]
  }

  function Trimmer(ws: char -> bool): string -> string
  {
    (s: string) => Trim(ws, s)
  }

  /** The text inside the first tag, and the text after it. */
  function NextTag(tag: string, s: string): (r: Option<(string, string)>)
    ensures r.Some? ==> |r.value.1| < |s|
  {
    match FindTag(tag, s)
    case None => None
    case Some(start) =>
      var rest := s[start + |tag|..];
      match FindClose(rest)
      case None => None
      case Some(end) => Some((rest[..end], rest[end + 1..]))
  }

  function IdsAfter(tag: string, trim: string -> string, s: string): seq<string>
    decreases |s|
  {
    match NextTag(tag, s)
    case None => []
    case Some((inside, after)) => NonBlank(trim(inside)) + IdsAfter(tag, trim, after)
  }

  /** The ids of the `[evidence:X]` tags in a text, left to right; blank ones do not count. */
  function CitationIds(ws: char -> bool, s: string): seq<string>
  {
    IdsAfter(TAG, Trimmer(ws), s)
  }

  lemma Regroup(a: seq<string>, b: seq<string>, c: seq<string>)
    ensures a + (b + c) == (a + b) + c && a + [] == a
  {
  }

  method ExtractCitationIds(ws: char -> bool, text: string) returns (ids: seq<string>)
    ensures ids == CitationIds(ws, text)
  {
    ids := [];
    var remaining := text;
    while true
      invariant CitationIds(ws, text) == ids + CitationIds(ws, remaining)
      decreases |remaining|
    {
      var start := FindTag(TAG, remaining);
      if start.None? {
        break;
      }
      var rest := remaining[start.value + |TAG|..];
      var end := FindClose(rest);
      if end.None? {
        break;
      }
      var id := Trim(ws, rest[..end.value]);
      Regroup(ids, NonBlank(id), CitationIds(ws, rest[end.value + 1..]));
      if id != "" {
        ids := ids + [id];
      }
      remaining := rest[end.value + 1..];
    }
    assert ids + [] == ids;
  }

  ghost predicate OpensAt(tag: string, s: string, i: nat)
    requires i <= |s|
  {
    tag <= s[i..]
  }

  ghost predicate Lacks(tag: string, s: string)
  {
    forall i: nat :: i <= |s| ==> !OpensAt(tag, s, i)
  }

  /** The text contains no opening of a tag. */
  ghost predicate Tagless(s: string)
  {
    Lacks(TAG, s)
  }

  lemma {:induction false} FindTagIff(tag: string, s: string)
    requires tag != ""
    ensures FindTag(tag, s).None? <==> Lacks(tag, s)
    decreases |s|
  {
    assert OpensAt(tag, s, 0) <==> tag <= s;
    if |s| >= |tag| {
      FindTagIff(tag, s[1..]);
      forall i: nat | 0 < i <= |s| ensures OpensAt(tag, s, i) <==> OpensAt(tag, s[1..], i - 1) {
        assert s[1..][i - 1..] == s[i..];
      }
      if Lacks(tag, s) {
        forall i: nat | i <= |s[1..]| ensures !OpensAt(tag, s[1..], i) {
          assert !OpensAt(tag, s, i + 1);
        }
      }
    }
  }

  lemma {:induction false} FindCloseIff(s: string)
    ensures FindClose(s).None? <==> ']' !in s
  {
    if s != "" {
      FindCloseIff(s[1..]);
      assert s == [s[0]] + s[1..];
    }
  }

  ghost predicate AllWhite(ws: char -> bool, s: string)
  {
    forall i :: 0 <= i < |s| ==> ws(s[i])
  }

  lemma {:induction false} LeftTrims(ws: char -> bool, front: string, s: string)
    requires AllWhite(ws, front) && (s == "" || !ws(s[0]))
    ensures TrimLeft(ws, front + s) == s
  {
    if front == "" {
      assert front + s == s;
    } else {
      assert (front + s)[1..] == front[1..] + s;
      LeftTrims(ws, front[1..], s);
    }
  }

  lemma {:induction false} RightTrims(ws: char -> bool, s: string, tail: string)
    requires AllWhite(ws, tail) && (s == "" || !ws(s[|s| - 1]))
    ensures TrimRight(ws, s + tail) == s
  {
    if tail == "" {
      assert s + tail == s;
    } else {
      var n := |tail| - 1;
      assert (s + tail)[..|s| + n] == s + tail[..n];
      RightTrims(ws, s, tail[..n]);
    }
  }

  /** Trimming takes the white space off both ends and nothing else. */
  lemma TrimIs(ws: char -> bool, front: string, core: string, tail: string)
    requires AllWhite(ws, front) && AllWhite(ws, tail)
    requires core == "" ==> tail == ""
    requires core != "" ==> !ws(core[0]) && !ws(core[|core| - 1])
    ensures Trim(ws, front + (core + tail)) == core
  {
    LeftTrims(ws, front, core + tail);
    RightTrims(ws, core, tail);
  }

  /** Prose followed by one tag. */
  datatype Cited = Cited(prose: string, inside: string)

  ghost predicate ProperTag(c: Cited)
  {
    Tagless(c.prose) && ']' !in c.inside
  }

  function WriteCited(cs: seq<Cited>, tail: string): string
  {
    if cs == [] then tail
    else cs[0].prose + (TAG + (cs[0].inside + ([']'] + WriteCited(cs[1..], tail))))
  }

  /** The trimmed contents of the tags; a blank one does not count. */
  function Ids(trim: string -> string, cs: seq<Cited>): seq<string>
  {
    if cs == [] then []
    else (if |trim(cs[0].inside)| == 0 then [] else [trim(cs[0].inside)]) + Ids(trim, cs[1..])
  }

  /** The tag cannot overlap itself, so prose without a tag cannot hide the start of one. */
  lemma {:induction false} TagFoundAfterProse(prose: string, rest: string)
    requires FindTag(TAG, prose).None?
    ensures FindTag(TAG, prose + (TAG + rest)) == Some(|prose|)
  {
    var s := prose + (TAG + rest);
    if prose == "" {
      assert s == TAG + rest;
    } else {
      assert s[|prose|] == TAG[0];
      assert |prose| < |TAG| ==> TAG[|prose|] != TAG[0];
      assert |prose| >= |TAG| ==> s[..|TAG|] == prose[..|TAG|];
      assert s[1..] == prose[1..] + (TAG + rest);
      TagFoundAfterProse(prose[1..], rest);
    }
  }

  lemma {:induction false} CloseFoundAfterId(id: string, rest: string)
    requires FindClose(id).None?
    ensures FindClose(id + ([']'] + rest)) == Some(|id|)
  {
    var s := id + ([']'] + rest);
    if id != "" {
      assert s[1..] == id[1..] + ([']'] + rest);
      CloseFoundAfterId(id[1..], rest);
    }
  }

  /** What the scan does at one tag. */
  lemma TagStep(tag: string, trim: string -> string, s: string, inside: string, after: string)
    requires NextTag(tag, s) == Some((inside, after))
    ensures IdsAfter(tag, trim, s) == NonBlank(trim(inside)) + IdsAfter(tag, trim, after)
  {
  }

  lemma TextAfter(prose: string, tag: string, rest: string)
    ensures (prose + (tag + rest))[|prose| + |tag|..] == rest
  {
    var s := prose + (tag + rest);
    assert s[|prose|..] == tag + rest;
  }

  lemma OneIdIsRead(ws: char -> bool, c: Cited, after: string, rest: string, s: string)
    requires ProperTag(c) && rest == c.inside + ([']'] + after) && s == c.prose + (TAG + rest)
    ensures CitationIds(ws, s) == NonBlank(Trim(ws, c.inside)) + CitationIds(ws, after)
  {
    FindTagIff(TAG, c.prose);
    FindCloseIff(c.inside);
    TagFoundAfterProse(c.prose, rest);
    CloseFoundAfterId(c.inside, after);
    TextAfter(c.prose, TAG, rest);
    assert rest[..|c.inside|] == c.inside && rest[|c.inside| + 1..] == after;
    TagStep(TAG, Trimmer(ws), s, c.inside, after);
  }

  /** After the last tag: prose alone, or prose and a tag that is never closed. */
  ghost predicate EndsTags(tail: string)
  {
    Tagless(tail) || exists prose, open :: IsOpenTag(tail, prose, open)
  }

  ghost predicate IsOpenTag(tail: string, prose: string, open: string)
  {
    tail == prose + (TAG + open) && Tagless(prose) && ']' !in open
  }

  lemma NoIdsAfter(ws: char -> bool, tail: string)
    requires EndsTags(tail)
    ensures CitationIds(ws, tail) == []
  {
    FindTagIff(TAG, tail);
    if !Tagless(tail) {
      var prose, open :| IsOpenTag(tail, prose, open);
      FindTagIff(TAG, prose);
      FindCloseIff(open);
      TagFoundAfterProse(prose, open);
      TextAfter(prose, TAG, open);
    }
  }

  /** No tag is overlooked and none is invented: the ids of a text are the trimmed contents of its closed tags, in order. */
  lemma {:induction false} WrittenIdsAreRead(ws: char -> bool, cs: seq<Cited>, tail: string)
    requires forall i :: 0 <= i < |cs| ==> ProperTag(cs[i])
    requires EndsTags(tail)
    ensures CitationIds(ws, WriteCited(cs, tail)) == Ids(Trimmer(ws), cs)
  {
    if cs == [] {
      NoIdsAfter(ws, tail);
    } else {
      var after := WriteCited(cs[1..], tail);
      WrittenIdsAreRead(ws, cs[1..], tail);
      OneIdIsRead(ws, cs[0], after, cs[0].inside + ([']'] + after), WriteCited(cs, tail));
    }
  }

  // ---- Validation ----

  /**
   The parts of the check that rest on word lists: `uncited` are the claim sentences of a text that
   have no tag in or shortly after them.
   */
  datatype Heuristics = Heuristics(isWhitespace: char -> bool, uncited: string -> seq<string>)

  datatype CitationReport = CitationReport(
    passed: bool,
    missingCitations: seq<string>,
    orphanCitations: seq<string>)

  /** The ids, in order, that are not among the real ones. */
  function Orphans(ids: seq<string>, known: seq<string>): seq<string>
  {
    if ids == [] then [] else (if ids[0] in known then [] else [ids[0]]) + Orphans(ids[1..], known)
  }

  /** Append those not yet present. */
  function AddNew(have: seq<string>, more: seq<string>): seq<string>
    decreases |more|
  {
    if more == [] then have else AddNew(if more[0] in have then have else have + [more[0]], more[1..])
  }

  function ValidateCitations(h: Heuristics, reasoning: string, declared: seq<string>, known: seq<string>): CitationReport
  {
    var inline := CitationIds(h.isWhitespace, reasoning);
    var orphans := AddNew(Orphans(declared, known), Orphans(inline, known));
    var uncited := if declared == [] && inline == [] then h.uncited(reasoning) else [];
    var missing := if |uncited| > 5 then uncited[..5] else uncited;
    CitationReport(orphans == [] && missing == [], missing, orphans)
  }

  lemma {:induction false} OrphansExactly(ids: seq<string>, known: seq<string>)
    ensures forall id :: id in Orphans(ids, known) <==> id in ids && id !in known
  {
    if ids != [] {
      OrphansExactly(ids[1..], known);
    }
  }

  lemma {:induction false} AddNewExactly(have: seq<string>, more: seq<string>)
    ensures forall id :: id in AddNew(have, more) <==> id in have || id in more
    decreases |more|
  {
    if more != [] {
      AddNewExactly(if more[0] in have then have else have + [more[0]], more[1..]);
    }
  }

  /** A verdict passes exactly when it cites only real calls and makes no claim without citing any. */
  lemma CitationsPassIff(h: Heuristics, reasoning: string, declared: seq<string>, known: seq<string>)
    ensures var inline := CitationIds(h.isWhitespace, reasoning);
            ValidateCitations(h, reasoning, declared, known).passed <==>
            && (forall id :: id in declared ==> id in known)
            && (forall id :: id in inline ==> id in known)
            && (declared != [] || inline != [] || h.uncited(reasoning) == [])
  {
    var inline := CitationIds(h.isWhitespace, reasoning);
    var a, b := Orphans(declared, known), Orphans(inline, known);
    OrphansExactly(declared, known);
    OrphansExactly(inline, known);
    AddNewExactly(a, b);
    assert AddNew(a, b) != [] ==> AddNew(a, b)[0] in AddNew(a, b);
    assert a != [] ==> a[0] in AddNew(a, b);
    assert b != [] ==> b[0] in AddNew(a, b);
  }

  /** The report names exactly the fabricated ids. */
  lemma OrphansAreNamed(h: Heuristics, reasoning: string, declared: seq<string>, known: seq<string>, id: string)
    ensures id in ValidateCitations(h, reasoning, declared, known).orphanCitations <==>
            id !in known && (id in declared || id in CitationIds(h.isWhitespace, reasoning))
  {
    var inline := CitationIds(h.isWhitespace, reasoning);
    OrphansExactly(declared, known);
    OrphansExactly(inline, known);
    AddNewExactly(Orphans(declared, known), Orphans(inline, known));
  }

  lemma {:induction false} AddNewKeeps(have: seq<string>, more: seq<string>)
    ensures have <= AddNew(have, more)
    decreases |more|
  {
    if more != [] {
      AddNewKeeps(if more[0] in have then have else have + [more[0]], more[1..]);
    }
  }

  /**
   What the re-prompt lists: the fabricated ids the verdict declares come first and in its order, and of
   the claims at most five, which are the first ones, and only where nothing at all is cited.
   */
  lemma ReportLists(h: Heuristics, reasoning: string, declared: seq<string>, known: seq<string>)
    ensures var report := ValidateCitations(h, reasoning, declared, known);
            var citesNothing := declared == [] && CitationIds(h.isWhitespace, reasoning) == [];
            && Orphans(declared, known) <= report.orphanCitations
            && report.missingCitations <= h.uncited(reasoning) && |report.missingCitations| <= 5
            && (report.missingCitations != [] ==> citesNothing)
            && (citesNothing && |h.uncited(reasoning)| <= 5 ==> report.missingCitations == h.uncited(reasoning))
            && (citesNothing && |h.uncited(reasoning)| > 5 ==> |report.missingCitations| == 5)
            && (report.passed <==> report.orphanCitations == [] && report.missingCitations == [])
  {
    AddNewKeeps(Orphans(declared, known), Orphans(CitationIds(h.isWhitespace, reasoning), known));
  }
}
