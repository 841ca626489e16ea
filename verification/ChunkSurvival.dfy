/** Where every section and every paragraph of a document ends up, in which order, and which sections
    share a unit, in terms of the document alone. */
module ChunkSurvival {
  import opened Seqs
  import opened Chunk
  import opened ChunkLaws

  // ---------- what a section is ----------

  /** Its length on the page: head and paragraphs, with a blank line between any two that show. */
  function Chars(s: Section): int {
    if s.paragraphs == [] then |s.head|
    else
      var body := Size(s.paragraphs) - 2;
      if s.head == "" then body else if body == 0 then |s.head| else |s.head| + 2 + body
  }

  /** Too short to stand alone, and without a paragraph. */
  predicate IsBare(s: Section, th: Thresholds) { s.paragraphs == [] && |s.head| < th.minSectionChars }

  /** Too short to stand alone, and its text opens like a caption. */
  predicate IsCaption(s: Section, th: Thresholds, tx: Text) {
    s.paragraphs != [] && Chars(s) < th.minSectionChars && OpensLikeCaption(s, tx)
  }

  predicate IsProse(s: Section, th: Thresholds, tx: Text) { !IsBare(s, th) && !IsCaption(s, th, tx) }

  lemma CharsAreRendered(s: Section)
    ensures |RenderSection(s.head, s.paragraphs)| == Chars(s)
  {
    if s.paragraphs != [] { SizeIsJoinedLength(s.paragraphs); }
  }

  predicate OpensLikeCaption(s: Section, tx: Text) {
    exists marker :: marker in CAPTION_MARKERS && marker <= tx.lower(Join(" ", s.paragraphs))
  }

  lemma NotesOpenLikeCaptions(s: Section, tx: Text)
    ensures IsNote(s, tx) <==> OpensLikeCaption(s, tx)
  {
    hide Join;
    var text, markers := tx.lower(Join(" ", s.paragraphs)), CAPTION_MARKERS;
    if marker :| marker in markers && marker <= text {
      var i :| 0 <= i < |markers| && markers[i] == marker;
      assert StartsWith(text, markers[i]);
    }
    if i :| 0 <= i < |markers| && StartsWith(text, markers[i]) {
      assert markers[i] in markers && markers[i] <= text;
    }
  }

  lemma FateIs(s: Section, th: Thresholds, tx: Text)
    ensures FateOf(s, th, tx) ==
      if IsCaption(s, th, tx) then AsNote else if IsBare(s, th) then Dropped else Survives
  {
    CharsAreRendered(s);
    NotesOpenLikeCaptions(s, tx);
    hide RenderSection, IsNote, OpensLikeCaption;
  }

  function Captions(sections: seq<Section>, th: Thresholds, tx: Text): seq<Section> {
    Filter(s => IsCaption(s, th, tx), sections)
  }

  function ProseSections(sections: seq<Section>, th: Thresholds, tx: Text): seq<Section> {
    Filter(s => IsProse(s, th, tx), sections)
  }

  /** The paragraphs of every section but the captions, in document order. */
  function ProseParagraphs(sections: seq<Section>, th: Thresholds, tx: Text): seq<string> {
    if sections == [] then []
    else
      var front, last := ProseParagraphs(sections[..|sections| - 1], th, tx), sections[|sections| - 1];
      if IsCaption(last, th, tx) then front else front + last.paragraphs
  }

  // ---------- sections ----------

  lemma {:induction false} SortOutSorts(sections: seq<Section>, th: Thresholds, tx: Text)
    ensures SortOut(sections, th, tx).notes == Captions(sections, th, tx)
    ensures SortOut(sections, th, tx).dropped == Count(sections, s => IsBare(s, th))
    ensures SurvivingParagraphs(sections, th, tx) == ProseParagraphs(sections, th, tx)
  {
    if sections != [] {
      var front, last := sections[..|sections| - 1], sections[|sections| - 1];
      SortOutSorts(front, th, tx);
      FateIs(last, th, tx);
      assert sections == front + [last];
      FilterConcat(s => IsCaption(s, th, tx), front, [last]);
      FilterOne(s => IsCaption(s, th, tx), last);
      hide FateOf, IsCaption, MergedWith, TooSmall;
      assert IsBare(last, th) ==> last.paragraphs == [];
      assert Captions(front, th, tx) + [] == Captions(front, th, tx);
    }
  }

  /** Dropped are exactly the short sections without a paragraph, and made into notes exactly the short
      ones that open like a caption, in order. */
  lemma SectionsGoWhereTheyShould(sections: seq<Section>, th: Thresholds, tx: Text)
    ensures var st := Settle(SortOut(sections, th, tx));
      st.notes == Captions(sections, th, tx) && st.dropped == Count(sections, s => IsBare(s, th))
  {
    SortOutSorts(sections, th, tx);
  }

  // ---------- paragraphs ----------

  ghost predicate NotedIn(p: string, section: Section, drafts: seq<Draft>) {
    exists d :: d in drafts && d.kind == NoteChunk && d.section == section.head && Occurs(p, d.text)
  }

  lemma {:induction false} InFiltered<T>(keep: T -> bool, s: seq<T>, x: T)
    ensures x in Filter(keep, s) <==> x in s && keep(x)
  {
    if s != [] {
      InFiltered(keep, s[1..], x);
      assert x in s <==> x == s[0] || x in s[1..];
    }
  }

  /** Every paragraph of every section of every document is in some chunk: in the note of its own section
      if that is a short caption, and in a prose chunk otherwise. */
  lemma EveryParagraphIsKept(doc: Document, th: Thresholds, tx: Text, section: Section, p: string)
    requires section in doc.sections && p in section.paragraphs
    ensures IsCaption(section, th, tx) ==> NotedIn(p, section, Drafts(doc, th, tx))
    ensures !IsCaption(section, th, tx) ==> Quotable(p, Drafts(doc, th, tx))
  {
    FateIs(section, th, tx);
    if IsCaption(section, th, tx) {
      SectionsGoWhereTheyShould(doc.sections, th, tx);
      InFiltered(s => IsCaption(s, th, tx), doc.sections, section);
      NoteTextKept(doc, th, tx, section, p);
    } else {
      NoTextLost(doc, th, tx, section);
    }
  }

  /** The head of every prose section can be quoted from a prose chunk, without its outer space. */
  lemma EveryHeadIsKept(doc: Document, th: Thresholds, tx: Text, section: Section)
    requires section in doc.sections && IsProse(section, th, tx)
    ensures Quotable(Strip(section.head, tx.space), Drafts(doc, th, tx))
  {
    FateIs(section, th, tx);
    NoTextLost(doc, th, tx, section);
  }

  /** Every footnote, text and marker, can be quoted from one chunk. */
  lemma EveryFootnoteIsKept(doc: Document, th: Thresholds, tx: Text, note: Note)
    requires note in doc.notes
    ensures exists d :: d in Drafts(doc, th, tx) && d.kind == NoteChunk && Occurs(note.text, d.text)
                        && Occurs(note.marker, d.text)
  {
    var d := Draft(NoteChunk, "footnotes", RenderNotes(doc.notes), false);
    assert FootnoteDrafts(doc.notes) == [d];
    assert d in Drafts(doc, th, tx) by { DraftsEndWithFootnotes(doc, th, tx, d); }
    var i :| 0 <= i < |doc.notes| && doc.notes[i] == note;
    assert Apply(RenderNote, doc.notes)[i] == RenderNote(note);
    JoinContains(BLANK_LINE, Apply(RenderNote, doc.notes), RenderNote(note));
    NoteShowsBoth(note);
    OccursTransitive(note.text, RenderNote(note), d.text);
    OccursTransitive(note.marker, RenderNote(note), d.text);
  }

  lemma DraftsEndWithFootnotes(doc: Document, th: Thresholds, tx: Text, d: Draft)
    requires d in FootnoteDrafts(doc.notes)
    ensures d in Drafts(doc, th, tx)
  {
    hide SortOut, Settle, ProseDrafts, TableDraft, DivNoteDraft, FootnoteDrafts;
  }

  lemma NoteShowsBoth(note: Note)
    ensures Occurs(note.text, RenderNote(note)) && Occurs(note.marker, RenderNote(note))
  {
    OccursSelf(note.text);
    OccursSelf(note.marker);
    if note.marker != "" {
      OccursInside(note.text, "[" + note.marker + "] ", note.text, "");
      assert "[" + note.marker + "] " + note.text + "" == RenderNote(note);
      OccursInside(note.marker, "[", note.marker, "] " + note.text);
      assert "[" + note.marker + ("] " + note.text) == RenderNote(note);
    } else {
      assert OccursAt("", RenderNote(note), 0);
    }
  }

  lemma {:induction false} DropLastKeeps(part: string, whole: string, drop: char -> bool)
    requires part != "" && !drop(part[|part| - 1]) && Occurs(part, whole)
    ensures Occurs(part, DropLast(whole, drop))
  {
    var to := DropLastIsPrefix(whole, drop);
    var at: nat :| OccursAt(part, whole, at);
    assert whole[at + |part| - 1] == part[|part| - 1];
    assert at + |part| <= to;
    assert DropLast(whole, drop)[at..at + |part|] == whole[at..at + |part|];
    assert OccursAt(part, DropLast(whole, drop), at);
  }

  function EndsTitle(): char -> bool { c => c == ' ' || c == ':' }

  function Title(t: Table): string {
    var bare := DropLast(t.head, EndsTitle());
    if t.number != "" then "Table " + t.number else if bare != "" then bare else "Table"
  }

  function Heading(t: Table, tx: Text): string { Strip(DropLast(Title(t) + ": " + t.caption, EndsTitle()), tx.space) }

  lemma {:induction false} SameDrop(s: string, a: char -> bool, b: char -> bool)
    requires forall c :: a(c) == b(c)
    ensures DropLast(s, a) == DropLast(s, b)
  {
    if s != "" && a(s[|s| - 1]) { SameDrop(s[..|s| - 1], a, b); }
  }

  lemma HeadingIsFirst(t: Table, tx: Text)
    ensures Heading(t, tx) <= RenderTable(t, tx)
  {
    SameDrop(t.head, EndsTitle(), c => c == ' ' || c == ':');
    SameDrop(Title(t) + ": " + t.caption, EndsTitle(), c => c == ' ' || c == ':');
    hide DropLast, Strip;
  }

  /** A table chunk shows the table's number and caption, where neither begins or ends in a space or
      ends in a colon. */
  lemma TableIsTitled(t: Table, tx: Text, part: string)
    requires part in {t.number, t.caption} && part != "" && Trimmed(part, tx.space)
    requires !EndsTitle()(part[|part| - 1])
    ensures Occurs(part, RenderTable(t, tx))
  {
    var line := Title(t) + ": " + t.caption;
    OccursSelf(part);
    if part == t.caption {
      OccursInside(part, Title(t) + ": ", part, "");
      assert Title(t) + ": " + part + "" == line;
    } else {
      OccursInside(part, "Table ", part, ": " + t.caption);
      assert "Table " + part + (": " + t.caption) == line;
    }
    HeadingIsFirst(t, tx);
    hide RenderTable, Strip, DropLast, Title, Trimmed, Occurs;
    DropLastKeeps(part, line, EndsTitle());
    StripKeepsTrimmed(part, DropLast(line, EndsTitle()), tx.space);
    HeadingLeads(t, tx, Heading(t, tx), part);
  }

  lemma HeadingLeads(t: Table, tx: Text, heading: string, part: string)
    requires heading <= RenderTable(t, tx) && Occurs(part, heading)
    ensures Occurs(part, RenderTable(t, tx))
  {
    hide RenderTable;
    OccursInside(part, "", heading, RenderTable(t, tx)[|heading|..]);
    assert "" + heading + RenderTable(t, tx)[|heading|..] == RenderTable(t, tx);
  }

  // ---------- order ----------

  /** One prose chunk: a head and a run of paragraphs under it. */
  datatype Piece = Piece(head: string, paragraphs: seq<string>)

  function AsPiece(head: string): seq<string> -> Piece { (group: seq<string>) => Piece(head, group) }

  function PiecesOf(unit: Section, th: Thresholds): seq<Piece> {
    Apply(AsPiece(unit.head), Split(unit.paragraphs, th.maxChunkChars))
  }

  function AllPieces(units: seq<Section>, th: Thresholds): seq<Piece> {
    if units == [] then [] else AllPieces(units[..|units| - 1], th) + PiecesOf(units[|units| - 1], th)
  }

  function Read(pieces: seq<Piece>): seq<string> {
    if pieces == [] then [] else Read(pieces[..|pieces| - 1]) + pieces[|pieces| - 1].paragraphs
  }

  /** The chunk shows the piece, named after the first line of its head, and is marked when over budget. */
  predicate ShowsPiece(d: Draft, piece: Piece, th: Thresholds, tx: Text) {
    && d.kind == Prose && d.text == RenderSection(piece.head, piece.paragraphs)
    && d.section == FirstLine(piece.head, tx.lineBreak) && (d.oversized <==> |d.text| > th.maxChunkChars)
  }

  lemma {:induction false} ReadConcat(a: seq<Piece>, b: seq<Piece>)
    ensures Read(a + b) == Read(a) + Read(b)
  {
    if b == [] {
      assert a + b == a;
    } else {
      assert (a + b)[..|a + b| - 1] == a + b[..|b| - 1];
      ReadConcat(a, b[..|b| - 1]);
    }
  }

  lemma {:induction false} ReadGroups(head: string, groups: seq<seq<string>>)
    ensures Read(Apply(AsPiece(head), groups)) == Flatten(groups)
  {
    if groups != [] {
      var n := |groups| - 1;
      ReadGroups(head, groups[..n]);
      assert groups == groups[..n] + [groups[n]];
      FlattenConcat(groups[..n], [groups[n]]);
      FlattenOne(groups[n]);
      var pieces := Apply(AsPiece(head), groups);
      hide Flatten;
      assert pieces[..n] == Apply(AsPiece(head), groups[..n]);
    }
  }

  lemma DraftShows(head: string, group: seq<string>, th: Thresholds, tx: Text)
    ensures ShowsPiece(ProseDraft(head, group, th, tx), Piece(head, group), th, tx)
  {
    hide RenderSection;
  }

  lemma UnitPieces(unit: Section, th: Thresholds, tx: Text)
    ensures var pieces, drafts := PiecesOf(unit, th), UnitDrafts(unit, th, tx);
      && Read(pieces) == unit.paragraphs && |pieces| == |drafts|
      && forall i :: 0 <= i < |pieces| ==> ShowsPiece(drafts[i], pieces[i], th, tx)
  {
    ReadGroups(unit.head, Split(unit.paragraphs, th.maxChunkChars));
    SplitKeepsParagraphs(unit.paragraphs, th.maxChunkChars);
    hide Split, ShowsPiece, ProseDraft, Flatten, Read;
    var pieces, drafts := PiecesOf(unit, th), UnitDrafts(unit, th, tx);
    forall i | 0 <= i < |pieces| ensures ShowsPiece(drafts[i], pieces[i], th, tx) {
      DraftShows(unit.head, Split(unit.paragraphs, th.maxChunkChars)[i], th, tx);
    }
  }

  lemma PiecesSnoc(units: seq<Section>, unit: Section, th: Thresholds)
    ensures AllPieces(units + [unit], th) == AllPieces(units, th) + PiecesOf(unit, th)
    ensures Paragraphs(units + [unit]) == Paragraphs(units) + unit.paragraphs
  {
    hide PiecesOf;
    assert (units + [unit])[..|units|] == units;
  }

  ghost predicate AllShown(pieces: seq<Piece>, drafts: seq<Draft>, th: Thresholds, tx: Text) {
    |pieces| == |drafts| && forall i :: 0 <= i < |pieces| ==> ShowsPiece(drafts[i], pieces[i], th, tx)
  }

  lemma {:induction false} PiecesAreDrafts(units: seq<Section>, th: Thresholds, tx: Text)
    ensures Read(AllPieces(units, th)) == Paragraphs(units)
    ensures AllShown(AllPieces(units, th), ProseDrafts(units, th, tx), th, tx)
  {
    hide *;
    if units == [] {
      NoPieces(th, tx);
    } else {
      var front, last := units[..|units| - 1], units[|units| - 1];
      PiecesAreDrafts(front, th, tx);
      OneMoreUnit(front, last, th, tx);
      assert units == front + [last];
    }
  }

  lemma OneMoreUnit(front: seq<Section>, last: Section, th: Thresholds, tx: Text)
    requires Read(AllPieces(front, th)) == Paragraphs(front)
    requires AllShown(AllPieces(front, th), ProseDrafts(front, th, tx), th, tx)
    ensures Read(AllPieces(front + [last], th)) == Paragraphs(front + [last])
    ensures AllShown(AllPieces(front + [last], th), ProseDrafts(front + [last], th, tx), th, tx)
  {
    hide *;
    UnitPieces(last, th, tx);
    PiecesSnoc(front, last, th);
    ProseDraftsSnoc(front, last, th, tx);
    ReadConcat(AllPieces(front, th), PiecesOf(last, th));
    ShowsBoth(AllPieces(front, th), PiecesOf(last, th), ProseDrafts(front, th, tx), UnitDrafts(last, th, tx), th, tx);
  }

  lemma ShowsBoth(a: seq<Piece>, b: seq<Piece>, x: seq<Draft>, y: seq<Draft>, th: Thresholds, tx: Text)
    requires AllShown(a, x, th, tx) && |b| == |y| && forall i :: 0 <= i < |b| ==> ShowsPiece(y[i], b[i], th, tx)
    ensures AllShown(a + b, x + y, th, tx)
  {
    hide ShowsPiece;
    forall i | 0 <= i < |a + b| ensures ShowsPiece((x + y)[i], (a + b)[i], th, tx) {
      if i >= |a| {
        assert (x + y)[i] == y[i - |a|] && (a + b)[i] == b[i - |a|];
      }
    }
  }

  lemma NoPieces(th: Thresholds, tx: Text)
    ensures ProseDrafts([], th, tx) == [] && AllPieces([], th) == [] && Read([]) == [] && Paragraphs([]) == []
    ensures AllShown([], [], th, tx)
  {}

  /** One chunk a table, then one a caption under its own head, then at most one of footnotes. */
  ghost predicate Apparatus(rest: seq<Draft>, doc: Document, captions: seq<Section>, tx: Text) {
    var t, c := |doc.tables|, |captions|;
    && |rest| == t + c + (if doc.notes == [] then 0 else 1)
    && (forall i :: 0 <= i < t ==> rest[i] == TableDraft(doc.tables[i], tx))
    && (forall i :: 0 <= i < c ==> rest[t + i].kind == NoteChunk && rest[t + i].section == captions[i].head)
    && (doc.notes != [] ==> rest[t + c].kind == NoteChunk && rest[t + c].section == "footnotes")
  }

  function AfterProse(doc: Document, captions: seq<Section>, tx: Text): seq<Draft> {
    Apply(t => TableDraft(t, tx), doc.tables) + Apply(DivNoteDraft, captions) + FootnoteDrafts(doc.notes)
  }

  lemma DraftsSplit(doc: Document, th: Thresholds, tx: Text)
    ensures var st := Settle(SortOut(doc.sections, th, tx));
      Drafts(doc, th, tx) == ProseDrafts(st.keep, th, tx) + AfterProse(doc, st.notes, tx)
  {
    hide Settle, SortOut, ProseDrafts, TableDraft, DivNoteDraft, FootnoteDrafts;
    var st := Settle(SortOut(doc.sections, th, tx));
    var prose, tables := ProseDrafts(st.keep, th, tx), Apply(t => TableDraft(t, tx), doc.tables);
    var divs, foot := Apply(DivNoteDraft, st.notes), FootnoteDrafts(doc.notes);
    assert prose + tables + divs + foot == prose + (tables + divs + foot);
  }

  lemma ApparatusFollows(doc: Document, captions: seq<Section>, tx: Text)
    ensures Apparatus(AfterProse(doc, captions, tx), doc, captions, tx)
  {
    hide TableDraft, RenderNotes;
    var tables, divs := Apply(t => TableDraft(t, tx), doc.tables), Apply(DivNoteDraft, captions);
    var foot, rest := FootnoteDrafts(doc.notes), AfterProse(doc, captions, tx);
    forall i | 0 <= i < |tables| ensures rest[i] == tables[i] {}
    forall i | 0 <= i < |divs| ensures rest[|tables| + i] == divs[i] {}
    forall i | 0 <= i < |foot| ensures rest[|tables| + |divs| + i] == foot[i] {}
  }

  /** The prose chunks come first and read, piece by piece, as the paragraphs of all sections but the
      captions in document order, with at most one line inserted; the apparatus follows. */
  lemma ChunksReadInOrder(doc: Document, th: Thresholds, tx: Text)
      returns (pieces: seq<Piece>, at: nat, heads: seq<string>)
    ensures var drafts := Drafts(doc, th, tx);
      && |pieces| <= |drafts| && (forall i :: 0 <= i < |pieces| ==> ShowsPiece(drafts[i], pieces[i], th, tx))
      && Apparatus(drafts[|pieces|..], doc, Captions(doc.sections, th, tx), tx)
    ensures |heads| <= 1 && InsertedAt(Read(pieces), ProseParagraphs(doc.sections, th, tx), at, heads)
  {
    var st := Settle(SortOut(doc.sections, th, tx));
    SortOutSorts(doc.sections, th, tx);
    at, heads := NoParagraphLost(doc.sections, th, tx);
    assert st.notes == Captions(doc.sections, th, tx);
    hide *;
    pieces := AllPieces(st.keep, th);
    PiecesAreDrafts(st.keep, th, tx);
    ApparatusFollows(doc, st.notes, tx);
    DraftsSplit(doc, th, tx);
    var prose, rest := ProseDrafts(st.keep, th, tx), AfterProse(doc, st.notes, tx);
    assert (prose + rest)[|pieces|..] == rest;
    forall i | 0 <= i < |pieces| ensures ShowsPiece(Drafts(doc, th, tx)[i], pieces[i], th, tx) {
      assert (prose + rest)[i] == prose[i];
    }
  }

  // ---------- which sections share a unit ----------

  /** A run of sections as one: heads one under the other, paragraphs one after the other. */
  function Merged(run: seq<Section>, tx: Text): Section
    requires run != []
  {
    if |run| == 1 then run[0]
    else
      var front, last := Merged(run[..|run| - 1], tx), run[|run| - 1];
      Section(Strip(front.head + BLANK_LINE + last.head, tx.space), front.paragraphs + last.paragraphs)
  }

  /** Every start of the run is still too short to be a unit. */
  ghost predicate StillShort(run: seq<Section>, th: Thresholds, tx: Text) {
    forall n :: 0 < n <= |run| ==> Chars(Merged(run[..n], tx)) < th.mergeBelow
  }

  /** The unit is the shortest run from where it starts that is long enough. */
  ghost predicate ShortestRun(run: seq<Section>, unit: Section, th: Thresholds, tx: Text) {
    && run != [] && unit == Merged(run, tx) && Chars(unit) >= th.mergeBelow
    && StillShort(run[..|run| - 1], th, tx)
  }

  /** `runs` cover the prose sections in order up to `rest`, which is not long enough yet. */
  ghost predicate Grouped(st: Sorting, runs: seq<seq<Section>>, rest: seq<Section>, th: Thresholds, tx: Text) {
    && |runs| == |st.keep| && (forall i :: 0 <= i < |runs| ==> ShortestRun(runs[i], st.keep[i], th, tx))
    && StillShort(rest, th, tx) && st.pending == (if rest == [] then None else Some(Merged(rest, tx)))
  }

  lemma MergedSnoc(run: seq<Section>, s: Section, tx: Text)
    ensures Merged(run + [s], tx) == MergedWith(if run == [] then None else Some(Merged(run, tx)), s, tx)
  {
    assert (run + [s])[..|run|] == run;
  }

  lemma StillShortSnoc(run: seq<Section>, s: Section, th: Thresholds, tx: Text)
    requires StillShort(run, th, tx) && Chars(Merged(run + [s], tx)) < th.mergeBelow
    ensures StillShort(run + [s], th, tx)
  {
    var more := run + [s];
    forall n | 0 < n <= |more| ensures Chars(Merged(more[..n], tx)) < th.mergeBelow {
      if n <= |run| {
        assert more[..n] == run[..n];
      } else {
        assert more[..n] == more;
      }
    }
  }

  lemma AbsorbGroups(st: Sorting, runs: seq<seq<Section>>, rest: seq<Section>, s: Section, th: Thresholds, tx: Text)
      returns (runs': seq<seq<Section>>, rest': seq<Section>)
    requires Grouped(st, runs, rest, th, tx)
    ensures Grouped(Absorb(st, s, th, tx), runs', rest', th, tx)
    ensures Flatten(runs') + rest' == Flatten(runs) + rest + if IsProse(s, th, tx) then [s] else []
  {
    FateIs(s, th, tx);
    hide Chars, Strip, Merged, FateOf, TooSmall, MergedWith;
    if !IsProse(s, th, tx) {
      runs', rest' := runs, rest;
    } else {
      runs', rest' := UnitGroups(st, runs, rest, s, th, tx);
    }
  }

  lemma UnitGroups(st: Sorting, runs: seq<seq<Section>>, rest: seq<Section>, s: Section, th: Thresholds, tx: Text)
      returns (runs': seq<seq<Section>>, rest': seq<Section>)
    requires Grouped(st, runs, rest, th, tx) && FateOf(s, th, tx) == Survives
    ensures Grouped(Absorb(st, s, th, tx), runs', rest', th, tx)
    ensures Flatten(runs') + rest' == Flatten(runs) + rest + [s]
  {
    var unit, next := MergedWith(st.pending, s, tx), Absorb(st, s, th, tx);
    MergedSnoc(rest, s, tx);
    CharsAreRendered(unit);
    assert TooSmall(unit, th) <==> Chars(unit) < th.mergeBelow;
    hide Chars, Strip, MergedWith, Merged, FateOf, TooSmall, StillShort;
    if TooSmall(unit, th) {
      runs', rest' := runs, rest + [s];
      StillShortSnoc(rest, s, th, tx);
    } else {
      runs', rest' := runs + [rest + [s]], [];
      assert (rest + [s])[..|rest|] == rest;
      assert next.keep == st.keep + [unit] && ShortestRun(rest + [s], unit, th, tx);
      NothingShort(th, tx);
      FlattenConcat(runs, [rest + [s]]);
      FlattenOne(rest + [s]);
      hide ShortestRun, Flatten;
    }
  }

  lemma NothingShort(th: Thresholds, tx: Text)
    ensures StillShort([], th, tx)
  {}

  lemma FlattenOne<T>(part: seq<T>)
    ensures Flatten([part]) == part
  {
    assert [part][1..] == [];
  }

  lemma {:induction false} SectionsGroup(sections: seq<Section>, th: Thresholds, tx: Text)
      returns (runs: seq<seq<Section>>, rest: seq<Section>)
    ensures Grouped(SortOut(sections, th, tx), runs, rest, th, tx)
    ensures Flatten(runs) + rest == ProseSections(sections, th, tx)
  {
    if sections == [] {
      runs, rest := [], [];
    } else {
      var front, last := sections[..|sections| - 1], sections[|sections| - 1];
      runs, rest := SectionsGroup(front, th, tx);
      assert sections == front + [last];
      FilterConcat(s => IsProse(s, th, tx), front, [last]);
      FilterOne(s => IsProse(s, th, tx), last);
      hide Grouped, IsProse, Absorb;
      runs, rest := AbsorbGroups(SortOut(front, th, tx), runs, rest, last, th, tx);
    }
  }

  /** The prose sections are cut, in order, into the shortest runs long enough to stand alone, and each
      run is one unit. What is left over at the end joins the last unit, its head as a line of text, or is
      the only unit. */
  lemma UnitsAreShortestRuns(sections: seq<Section>, th: Thresholds, tx: Text)
      returns (runs: seq<seq<Section>>, rest: seq<Section>)
    ensures Flatten(runs) + rest == ProseSections(sections, th, tx) && StillShort(rest, th, tx)
    ensures var keep := Settle(SortOut(sections, th, tx)).keep; var n := |runs| - 1;
      if runs == [] then keep == if rest == [] then [] else [Merged(rest, tx)]
      else
        && |keep| == |runs| && (forall i :: 0 <= i < n ==> ShortestRun(runs[i], keep[i], th, tx))
        && exists unit :: ShortestRun(runs[n], unit, th, tx) && keep[n].head == unit.head
             && keep[n].paragraphs == unit.paragraphs + LeftOver(rest, tx)
  {
    runs, rest := SectionsGroup(sections, th, tx);
    var st := SortOut(sections, th, tx);
    hide SortOut, Merged, ShortestRun, StillShort;
    if runs != [] {
      assert ShortestRun(runs[|runs| - 1], st.keep[|runs| - 1], th, tx);
    }
  }

  function LeftOver(rest: seq<Section>, tx: Text): seq<string> {
    if rest == [] then []
    else (if Merged(rest, tx).head == "" then [] else [Merged(rest, tx).head]) + Merged(rest, tx).paragraphs
  }

  // ---------- the whole result ----------

  function IsOver(th: Thresholds): Draft -> bool { (d: Draft) => d.kind == Prose && |d.text| > th.maxChunkChars }

  lemma {:induction false} OversizedIsCount(drafts: seq<Draft>, th: Thresholds)
    requires forall d :: d in drafts ==> d.kind == Prose && (d.oversized <==> |d.text| > th.maxChunkChars)
    ensures Oversized(drafts) == Count(drafts, IsOver(th))
  {
    if drafts != [] {
      assert drafts[|drafts| - 1] in drafts;
      OversizedIsCount(drafts[..|drafts| - 1], th);
    }
  }

  lemma {:induction false} CountNone(drafts: seq<Draft>, which: Draft -> bool)
    requires forall i :: 0 <= i < |drafts| ==> !which(drafts[i])
    ensures Count(drafts, which) == 0
  {
    if drafts != [] { CountNone(drafts[..|drafts| - 1], which); }
  }

  function ChunkIsOver(th: Thresholds): Chunk -> bool { (c: Chunk) => IsOver(th)(c.draft) }

  lemma {:induction false} CountChunks(chunks: seq<Chunk>, drafts: seq<Draft>, th: Thresholds)
    requires |chunks| == |drafts| && forall i :: 0 <= i < |chunks| ==> chunks[i].draft == drafts[i]
    ensures Count(chunks, ChunkIsOver(th)) == Count(drafts, IsOver(th))
  {
    if chunks != [] { CountChunks(chunks[..|chunks| - 1], drafts[..|drafts| - 1], th); }
  }

  /** The counters say what happened: sections dropped, sections that share a unit with an earlier one,
      and prose chunks over the budget. */
  lemma CountersCount(doc: Document, sourceId: string, th: Thresholds, tx: Text)
    ensures var result := Chunked(doc, sourceId, th, tx);
      && |result.chunks| == |Drafts(doc, th, tx)|
      && (forall i :: 0 <= i < |result.chunks| ==> result.chunks[i].draft == Drafts(doc, th, tx)[i])
      && Distinct(Apply((c: Chunk) => c.id, result.chunks))
      && result.dropped == Count(doc.sections, s => IsBare(s, th))
      && result.oversized == Count(result.chunks, ChunkIsOver(th))
  {
    SectionsGoWhereTheyShould(doc.sections, th, tx);
    ChunkIdsDistinct(sourceId, Drafts(doc, th, tx));
    OversizedOverall(doc, th, tx);
    CountChunks(Number(sourceId, Drafts(doc, th, tx)), Drafts(doc, th, tx), th);
    hide Drafts, SortOut, Settle, IsOver, ChunkIsOver, Distinct, Number, IsBare, ProseDrafts;
  }

  lemma OversizedOverall(doc: Document, th: Thresholds, tx: Text)
    ensures Oversized(ProseDrafts(Settle(SortOut(doc.sections, th, tx)).keep, th, tx))
         == Count(Drafts(doc, th, tx), IsOver(th))
  {
    var st := Settle(SortOut(doc.sections, th, tx));
    var prose, rest := ProseDrafts(st.keep, th, tx), AfterProse(doc, st.notes, tx);
    PiecesAreDrafts(st.keep, th, tx);
    assert forall d :: d in prose ==> d.kind == Prose && (d.oversized <==> |d.text| > th.maxChunkChars);
    DraftsSplit(doc, th, tx);
    ApparatusIsNotProse(doc, st.notes, tx);
    assert forall i :: 0 <= i < |rest| ==> !IsOver(th)(rest[i]);
    hide *;
    OversizedIsCount(prose, th);
    CountConcat(prose, rest, IsOver(th));
    CountNone(rest, IsOver(th));
  }

  lemma ApparatusIsNotProse(doc: Document, captions: seq<Section>, tx: Text)
    ensures forall i :: 0 <= i < |AfterProse(doc, captions, tx)| ==> AfterProse(doc, captions, tx)[i].kind != Prose
  {
    hide RenderTable, RenderNotes;
  }
}
