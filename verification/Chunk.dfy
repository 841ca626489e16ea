/** `claimstone/chunk.py`: a parsed document becomes the chunks a model is prompted with.
    Case folding and the classes of space and line-break characters belong to the language's
    Unicode tables, so they are passed in as a `Text`. */
module Chunk {
  import opened Seqs

  datatype Text = Text(lower: string -> string, space: char -> bool, lineBreak: char -> bool)

  datatype Section = Section(head: string, paragraphs: seq<string>)
  datatype Table = Table(number: string, head: string, caption: string, rows: seq<seq<string>>)
  datatype Note = Note(marker: string, text: string)
  datatype Document = Document(sections: seq<Section>, tables: seq<Table>, notes: seq<Note>)

  datatype Thresholds = Thresholds(minSectionChars: int, mergeBelow: int, maxChunkChars: int)

  datatype Kind = Prose | TableChunk | NoteChunk
  datatype Draft = Draft(kind: Kind, section: string, text: string, oversized: bool)
  datatype Chunk = Chunk(id: string, draft: Draft)
  datatype ChunkResult = ChunkResult(chunks: seq<Chunk>, dropped: nat, merged: nat, oversized: nat)

  const BLANK_LINE := "\n\n"
  const CAPTION_MARKERS: seq<string> := [
    "notes:", "note:", "this table", "this figure", "the figure", "the table",
    "source:", "sources:", "standard errors", "t-statistics"]

  // ---------- rendering ----------

  function Join(separator: string, parts: seq<string>): string {
    if parts == [] then ""
    else if |parts| == 1 then parts[0]
    else parts[0] + separator + Join(separator, parts[1..])
  }

  function RenderSection(head: string, paragraphs: seq<string>): string {
    var body := Join(BLANK_LINE, paragraphs);
    if head != "" && body != "" then head + BLANK_LINE + body else if head != "" then head else body
  }

  function RenderNote(note: Note): string {
    if note.marker != "" then "[" + note.marker + "] " + note.text else note.text
  }

  function RenderNotes(notes: seq<Note>): string {
    Join(BLANK_LINE, Apply(RenderNote, notes))
  }

  function DropLast(s: string, drop: char -> bool): string {
    if s != "" && drop(s[|s| - 1]) then DropLast(s[..|s| - 1], drop) else s
  }

  function DropFirst(s: string, drop: char -> bool): string {
    if s != "" && drop(s[0]) then DropFirst(s[1..], drop) else s
  }

  function Strip(s: string, space: char -> bool): string {
    DropLast(DropFirst(s, space), space)
  }

  function FirstLine(s: string, lineBreak: char -> bool): string {
    if s == "" || lineBreak(s[0]) then "" else [s[0]] + FirstLine(s[1..], lineBreak)
  }

  function Width(rows: seq<seq<string>>): nat {
    if rows == [] then 0
    else var rest := Width(rows[1..]); if |rows[0]| > rest then |rows[0]| else rest
  }

  function Blanks(n: nat): seq<string> { seq(n, _ => "") }

  function Padded(row: seq<string>, width: nat): seq<string> {
    row + Blanks(if |row| < width then width - |row| else 0)
  }

  function TableLine(row: seq<string>, width: nat): string {
    "| " + Join(" | ", Padded(row, width)) + " |"
  }

  function RenderTable(t: Table, tx: Text): string {
    var bare := DropLast(t.head, c => c == ' ' || c == ':');
    var title := if t.number != "" then "Table " + t.number else if bare != "" then bare else "Table";
    var heading := Strip(DropLast(title + ": " + t.caption, c => c == ' ' || c == ':'), tx.space);
    if t.rows == [] then heading
    else heading + BLANK_LINE + Join("\n", Apply(row => TableLine(row, Width(t.rows)), t.rows))
  }

  // ---------- rule 4: greedy packing ----------

  predicate Fits(group: seq<string>, budget: int) {
    |group| <= 1 || |Join(BLANK_LINE, group)| <= budget
  }

  /** A contiguous division of `paragraphs` into non-empty groups, none over budget unless it is
      one paragraph that cannot be cut. */
  predicate IsPacking(groups: seq<seq<string>>, paragraphs: seq<string>, budget: int) {
    Flatten(groups) == paragraphs && forall g :: g in groups ==> g != [] && Fits(g, budget)
  }

  ghost predicate IsOptimalPacking(groups: seq<seq<string>>, paragraphs: seq<string>, budget: int) {
    && IsPacking(groups, paragraphs, budget)
    && forall q :: IsPacking(q, paragraphs, budget) ==> |groups| <= |q|
  }

  /** Close `current` only when the next paragraph does not fit beside it. */
  function Pack(current: seq<string>, rest: seq<string>, budget: int): seq<seq<string>>
    decreases |rest|
  {
    if rest == [] then (if current == [] then [] else [current])
    else if current != [] && |Join(BLANK_LINE, current + [rest[0]])| > budget then
      [current] + Pack([rest[0]], rest[1..], budget)
    else Pack(current + [rest[0]], rest[1..], budget)
  }

  function Split(paragraphs: seq<string>, budget: int): seq<seq<string>> {
    if paragraphs == [] then [[]] else Pack([], paragraphs, budget)
  }

  /** The running size the packing loop keeps: every paragraph costs its length plus a gap. */
  function Size(group: seq<string>): nat {
    if group == [] then 0 else |group[0]| + 2 + Size(group[1..])
  }

  lemma {:induction false} SizeIsJoinedLength(group: seq<string>)
    requires group != []
    ensures Size(group) == |Join(BLANK_LINE, group)| + 2
  {
    if |group| > 1 { SizeIsJoinedLength(group[1..]); }
  }

  lemma {:induction false} SizeConcat(a: seq<string>, b: seq<string>)
    ensures Size(a + b) == Size(a) + Size(b)
  {
    if a == [] {
      assert a + b == b;
    } else {
      assert (a + b)[1..] == a[1..] + b;
      SizeConcat(a[1..], b);
    }
  }

  method SplitParagraphs(paragraphs: seq<string>, budget: int) returns (groups: seq<seq<string>>)
    ensures groups == Split(paragraphs, budget)
    ensures paragraphs != [] ==> IsOptimalPacking(groups, paragraphs, budget)
  {
    groups := [];
    var current: seq<string>, size := [], 0;
    for i := 0 to |paragraphs|
      invariant groups + Pack(current, paragraphs[i..], budget) == Pack([], paragraphs, budget)
      invariant size == Size(current)
      invariant i > 0 ==> current != []
    {
      var paragraph := paragraphs[i];
      assert paragraphs[i..][1..] == paragraphs[i + 1..];
      SizeConcat(current, [paragraph]);
      SizeIsJoinedLength(current + [paragraph]);
      if current != [] && size + |paragraph| > budget {
        groups := groups + [current];
        current, size := [], 0;
      }
      assert [] + [paragraph] == [paragraph];
      current := current + [paragraph];
      size := size + |paragraph| + 2;
    }
    if current != [] {
      groups := groups + [current];
    }
    if groups == [] {
      groups := [[]];
    }
    if paragraphs != [] {
      PackIsPacking([], paragraphs, budget);
      forall q | IsPacking(q, paragraphs, budget) ensures |groups| <= |q| {
        GreedyIsOptimal(paragraphs, budget, q);
      }
    }
  }

  lemma {:induction false} PackIsPacking(current: seq<string>, rest: seq<string>, budget: int)
    requires Fits(current, budget)
    ensures IsPacking(Pack(current, rest, budget), current + rest, budget)
    decreases |rest|
  {
    if rest == [] {
      assert current + rest == current;
    } else {
      assert current + rest == (current + [rest[0]]) + rest[1..];
      if current != [] && |Join(BLANK_LINE, current + [rest[0]])| > budget {
        PackIsPacking([rest[0]], rest[1..], budget);
        assert current + rest == current + ([rest[0]] + rest[1..]);
      } else {
        PackIsPacking(current + [rest[0]], rest[1..], budget);
      }
    }
  }

  /** A run cut out of a fitting group fits. */
  lemma FitsWithin(group: seq<string>, from: nat, to: nat, budget: int)
    requires from < to <= |group| && Fits(group, budget)
    ensures Fits(group[from..to], budget)
  {
    if |group| > 1 {
      var part := group[from..to];
      assert group == group[..from] + (part + group[to..]);
      SizeConcat(group[..from], part + group[to..]);
      SizeConcat(part, group[to..]);
      SizeIsJoinedLength(group);
      SizeIsJoinedLength(part);
    }
  }

  /** Dropping paragraphs from the front never needs more groups. */
  lemma {:induction false} DropFront(q: seq<seq<string>>, n: nat, budget: int)
      returns (shorter: seq<seq<string>>)
    requires IsPacking(q, Flatten(q), budget) && n <= |Flatten(q)|
    ensures IsPacking(shorter, Flatten(q)[n..], budget) && |shorter| <= |q|
  {
    if q == [] || n == 0 {
      return q;
    }
    var rest := q[1..];
    assert forall g :: g in rest ==> g in q;
    if n < |q[0]| {
      FitsWithin(q[0], n, |q[0]|, budget);
      shorter := [q[0][n..|q[0]|]] + rest;
      assert shorter[1..] == rest;
      assert forall g :: g in shorter ==> g == q[0][n..|q[0]|] || g in rest;
    } else {
      shorter := DropFront(rest, n - |q[0]|, budget);
      assert Flatten(q)[n..] == Flatten(rest)[n - |q[0]|..];
    }
  }

  /** A first group that takes more than `current` takes the next paragraph too, so it does not fit. */
  lemma FirstGroupIsNoLonger(current: seq<string>, rest: seq<string>, budget: int, q: seq<seq<string>>)
    requires current != [] && rest != [] && IsPacking(q, current + rest, budget)
    requires |Join(BLANK_LINE, current + [rest[0]])| > budget
    ensures q != [] && |q[0]| <= |current|
  {
    var all, first := current + rest, q[0];
    assert first in q && first == all[..|first|];
    assert forall n: nat :: n <= |first| ==> first[0..n] == all[..n];
    assert all[..|current| + 1] == current + [rest[0]];
    hide Join;
    if |first| > |current| {
      FitsWithin(first, 0, |current| + 1, budget);
    }
  }

  lemma TailIsPacking(q: seq<seq<string>>, paragraphs: seq<string>, budget: int)
    requires q != [] && IsPacking(q, paragraphs, budget)
    ensures IsPacking(q[1..], Flatten(q[1..]), budget) && Flatten(q[1..]) == paragraphs[|q[0]|..]
  {
    hide Fits;
    assert forall g :: g in q[1..] ==> g in q;
  }

  lemma {:induction false} GreedyStaysAhead(
    current: seq<string>, rest: seq<string>, budget: int, q: seq<seq<string>>)
    requires current != [] && IsPacking(q, current + rest, budget)
    ensures |Pack(current, rest, budget)| <= |q|
    decreases |rest|
  {
    var all := current + rest;
    assert q != [];
    if rest != [] {
      assert all == (current + [rest[0]]) + rest[1..];
      hide Join, IsPacking;
      if |Join(BLANK_LINE, current + [rest[0]])| > budget {
        FirstGroupIsNoLonger(current, rest, budget, q);
        TailIsPacking(q, all, budget);
        var skip := |current| - |q[0]|;
        var tail := DropFront(q[1..], skip, budget);
        assert Flatten(q[1..])[skip..] == all[|current|..] == [rest[0]] + rest[1..];
        GreedyStaysAhead([rest[0]], rest[1..], budget, tail);
      } else {
        GreedyStaysAhead(current + [rest[0]], rest[1..], budget, q);
      }
    }
  }

  /** Optimality: no division that respects the budget has fewer groups. */
  lemma GreedyIsOptimal(paragraphs: seq<string>, budget: int, q: seq<seq<string>>)
    requires paragraphs != [] && IsPacking(q, paragraphs, budget)
    ensures |Split(paragraphs, budget)| <= |q|
  {
    assert [] + [paragraphs[0]] == [paragraphs[0]];
    assert [paragraphs[0]] + paragraphs[1..] == paragraphs;
    GreedyStaysAhead([paragraphs[0]], paragraphs[1..], budget, q);
  }

  // ---------- rules 1-3: what each section becomes ----------

  datatype Fate = AsNote | Dropped | Survives

  /** `pending` waits for the next surviving section; `keep` are the units that become prose. */
  datatype Sorting = Sorting(
    pending: Option<Section>, keep: seq<Section>, notes: seq<Section>, dropped: nat, merged: nat)

  const NOTHING_SORTED := Sorting(None, [], [], 0, 0)

  predicate StartsWith(s: string, prefix: string) { prefix <= s }

  predicate IsNote(section: Section, tx: Text) {
    var joined := tx.lower(Join(" ", section.paragraphs));
    exists i :: 0 <= i < |CAPTION_MARKERS| && StartsWith(joined, CAPTION_MARKERS[i])
  }

  function FateOf(section: Section, th: Thresholds, tx: Text): Fate {
    var short := |RenderSection(section.head, section.paragraphs)| < th.minSectionChars;
    if short && section.paragraphs != [] && IsNote(section, tx) then AsNote
    else if short && section.paragraphs == [] then Dropped
    else Survives
  }

  function MergedWith(pending: Option<Section>, section: Section, tx: Text): Section {
    if pending.None? then section
    else Section(Strip(pending.value.head + BLANK_LINE + section.head, tx.space),
                 pending.value.paragraphs + section.paragraphs)
  }

  predicate TooSmall(unit: Section, th: Thresholds) {
    |RenderSection(unit.head, unit.paragraphs)| < th.mergeBelow
  }

  function Absorb(st: Sorting, section: Section, th: Thresholds, tx: Text): Sorting {
    match FateOf(section, th, tx)
    case AsNote => st.(notes := st.notes + [section])
    case Dropped => st.(dropped := st.dropped + 1)
    case Survives =>
      var unit := MergedWith(st.pending, section, tx);
      var after := st.(pending := None, merged := st.merged + if st.pending.Some? then 1 else 0);
      if TooSmall(unit, th) then after.(pending := Some(unit)) else after.(keep := st.keep + [unit])
  }

  function SortOut(sections: seq<Section>, th: Thresholds, tx: Text): Sorting {
    if sections == [] then NOTHING_SORTED
    else Absorb(SortOut(sections[..|sections| - 1], th, tx), sections[|sections| - 1], th, tx)
  }

  lemma SortOutNone(th: Thresholds, tx: Text)
    ensures SortOut([], th, tx) == NOTHING_SORTED
  {}

  lemma SortOutOneMore(sections: seq<Section>, i: nat, th: Thresholds, tx: Text)
    requires i < |sections|
    ensures SortOut(sections[..i + 1], th, tx) == Absorb(SortOut(sections[..i], th, tx), sections[i], th, tx)
  {
    assert sections[..i + 1][..i] == sections[..i];
  }

  function HeadLine(pending: Section): seq<string> {
    if pending.head != "" then [pending.head] else []
  }

  /** A unit still waiting at the end joins what came before, its head as a line of text. */
  function Settle(st: Sorting): Sorting {
    if st.pending.None? then st
    else if st.keep == [] then st.(pending := None, keep := [st.pending.value])
    else
      var last := st.keep[|st.keep| - 1];
      var extended := Section(last.head,
                              last.paragraphs + (HeadLine(st.pending.value) + st.pending.value.paragraphs));
      st.(pending := None, keep := st.keep[|st.keep| - 1 := extended], merged := st.merged + 1)
  }

  // ---------- rules 4-5: drafts, numbered in emission order ----------

  function ProseDraft(head: string, group: seq<string>, th: Thresholds, tx: Text): Draft {
    var text := RenderSection(head, group);
    Draft(Prose, if head != "" then FirstLine(head, tx.lineBreak) else "", text, |text| > th.maxChunkChars)
  }

  function UnitDrafts(unit: Section, th: Thresholds, tx: Text): seq<Draft> {
    Apply(group => ProseDraft(unit.head, group, th, tx), Split(unit.paragraphs, th.maxChunkChars))
  }

  function ProseDrafts(units: seq<Section>, th: Thresholds, tx: Text): seq<Draft> {
    Flatten(Apply(unit => UnitDrafts(unit, th, tx), units))
  }

  function TableDraft(t: Table, tx: Text): Draft {
    Draft(TableChunk, Strip("Table " + t.number, tx.space), RenderTable(t, tx), false)
  }

  function DivNoteDraft(section: Section): Draft {
    Draft(NoteChunk, section.head,
          RenderNotes([Note(section.head, Join(" ", section.paragraphs))]), false)
  }

  function FootnoteDrafts(notes: seq<Note>): seq<Draft> {
    if notes == [] then [] else [Draft(NoteChunk, "footnotes", RenderNotes(notes), false)]
  }

  function Drafts(doc: Document, th: Thresholds, tx: Text): seq<Draft> {
    var st := Settle(SortOut(doc.sections, th, tx));
    ProseDrafts(st.keep, th, tx) + Apply(t => TableDraft(t, tx), doc.tables)
    + Apply(DivNoteDraft, st.notes) + FootnoteDrafts(doc.notes)
  }

  function Prefix(kind: Kind): string {
    match kind case Prose => "c" case TableChunk => "t" case NoteChunk => "n"
  }

  function ChunkId(sourceId: string, kind: Kind, position: nat): string {
    sourceId + "#" + Prefix(kind) + Decimal(position)
  }

  function Number(sourceId: string, drafts: seq<Draft>): (r: seq<Chunk>)
    ensures |r| == |drafts|
    ensures forall i :: 0 <= i < |r| ==> r[i].draft == drafts[i]
  {
    seq(|drafts|, i requires 0 <= i < |drafts| =>
      Chunk(ChunkId(sourceId, drafts[i].kind, i + 1), drafts[i]))
  }

  function Oversized(drafts: seq<Draft>): nat {
    if drafts == [] then 0
    else Oversized(drafts[..|drafts| - 1]) + (if drafts[|drafts| - 1].oversized then 1 else 0)
  }

  lemma NoneOversized()
    ensures Oversized([]) == 0
  {}

  lemma OversizedOneMore(drafts: seq<Draft>, j: nat)
    requires j < |drafts|
    ensures Oversized(drafts[..j + 1]) == Oversized(drafts[..j]) + (if drafts[j].oversized then 1 else 0)
  {
    assert drafts[..j + 1][..j] == drafts[..j];
  }

  lemma {:induction false} OversizedConcat(a: seq<Draft>, b: seq<Draft>)
    ensures Oversized(a + b) == Oversized(a) + Oversized(b)
  {
    if b == [] {
      assert a + b == a;
    } else {
      assert (a + b)[..|a + b| - 1] == a + b[..|b| - 1];
      OversizedConcat(a, b[..|b| - 1]);
    }
  }

  /** Rules 1-3 in place: classify each section, carry a small one forward, settle the last. */
  method SortSections(sections: seq<Section>, th: Thresholds, tx: Text)
      returns (keep: seq<Section>, notes: seq<Section>, dropped: nat, merged: nat)
    ensures Sorting(None, keep, notes, dropped, merged) == Settle(SortOut(sections, th, tx))
  {
    hide SortOut, RenderSection, IsNote, Strip;
    var pending: Option<Section> := None;
    keep, notes, dropped, merged := [], [], 0, 0;
    SortOutNone(th, tx);
    assert sections[..0] == [];
    for i := 0 to |sections|
      invariant Sorting(pending, keep, notes, dropped, merged) == SortOut(sections[..i], th, tx)
    {
      var section := sections[i];
      SortOutOneMore(sections, i, th, tx);
      var short := |RenderSection(section.head, section.paragraphs)| < th.minSectionChars;
      if short && section.paragraphs != [] && IsNote(section, tx) {
        notes := notes + [section];
        continue;
      }
      if short && section.paragraphs == [] {
        dropped := dropped + 1;
        continue;
      }
      var unit := section;
      if pending.Some? {
        unit := Section(Strip(pending.value.head + BLANK_LINE + section.head, tx.space),
                        pending.value.paragraphs + section.paragraphs);
        pending := None;
        merged := merged + 1;
      }
      if |RenderSection(unit.head, unit.paragraphs)| < th.mergeBelow {
        pending := Some(unit);
        continue;
      }
      keep := keep + [unit];
    }
    assert sections[..|sections|] == sections;
    if pending.Some? {
      if keep != [] {
        var last := keep[|keep| - 1];
        var trailing := (if pending.value.head != "" then [pending.value.head] else [])
                        + pending.value.paragraphs;
        keep := keep[|keep| - 1 := Section(last.head, last.paragraphs + trailing)];
        merged := merged + 1;
      } else {
        keep := [pending.value];
      }
    }
  }

  method Emit(chunks: seq<Chunk>, sourceId: string, ghost drafts: seq<Draft>, draft: Draft)
      returns (longer: seq<Chunk>)
    requires chunks == Number(sourceId, drafts)
    ensures longer == Number(sourceId, drafts + [draft])
  {
    longer := chunks + [Chunk(ChunkId(sourceId, draft.kind, |chunks| + 1), draft)];
  }

  method EmitUnit(unit: Section, chunks: seq<Chunk>, sourceId: string, ghost drafts: seq<Draft>,
                  th: Thresholds, tx: Text) returns (longer: seq<Chunk>, oversized: nat)
    requires chunks == Number(sourceId, drafts)
    ensures longer == Number(sourceId, drafts + UnitDrafts(unit, th, tx))
    ensures oversized == Oversized(UnitDrafts(unit, th, tx))
  {
    var groups := SplitParagraphs(unit.paragraphs, th.maxChunkChars);
    ghost var mine := UnitDrafts(unit, th, tx);
    hide Split, RenderSection, Number, IsOptimalPacking, Oversized;
    longer, oversized := chunks, 0;
    assert mine[..0] == [];
    NoneOversized();
    ghost var so := drafts;
    for j := 0 to |groups|
      invariant so == drafts + mine[..j] && longer == Number(sourceId, so)
      invariant oversized == Oversized(mine[..j])
    {
      var draft := ProseDraft(unit.head, groups[j], th, tx);
      if draft.oversized {
        oversized := oversized + 1;
      }
      longer := Emit(longer, sourceId, so, draft);
      OversizedOneMore(mine, j);
      so := so + [draft];
    }
    assert mine[..|groups|] == mine;
  }

  function Chunked(doc: Document, sourceId: string, th: Thresholds, tx: Text): ChunkResult {
    var st := Settle(SortOut(doc.sections, th, tx));
    ChunkResult(Number(sourceId, Drafts(doc, th, tx)), st.dropped, st.merged,
                Oversized(ProseDrafts(st.keep, th, tx)))
  }

  method ChunkDocument(doc: Document, sourceId: string, th: Thresholds, tx: Text)
      returns (result: ChunkResult)
    ensures result == Chunked(doc, sourceId, th, tx)
  {
    var keep, notes, dropped, merged := SortSections(doc.sections, th, tx);
    var chunks: seq<Chunk>, oversized := [], 0;
    ghost var drafts: seq<Draft> := [];
    for i := 0 to |keep|
      invariant drafts == ProseDrafts(keep[..i], th, tx)
      invariant chunks == Number(sourceId, drafts) && oversized == Oversized(drafts)
    {
      var more;
      chunks, more := EmitUnit(keep[i], chunks, sourceId, drafts, th, tx);
      ProseDraftsSnoc(keep[..i], keep[i], th, tx);
      OversizedConcat(drafts, UnitDrafts(keep[i], th, tx));
      assert keep[..i + 1] == keep[..i] + [keep[i]];
      drafts := drafts + UnitDrafts(keep[i], th, tx);
      oversized := oversized + more;
    }
    assert keep[..|keep|] == keep;
    chunks := EmitApparatus(doc, notes, chunks, sourceId, drafts, tx);
    result := ChunkResult(chunks, dropped, merged, oversized);
  }

  /** Rule 5 and the two places notes come from. */
  method EmitApparatus(doc: Document, notes: seq<Section>, chunks: seq<Chunk>, sourceId: string,
                       ghost drafts: seq<Draft>, tx: Text) returns (all: seq<Chunk>)
    requires chunks == Number(sourceId, drafts)
    ensures all == Number(sourceId, drafts + Apply(t => TableDraft(t, tx), doc.tables)
                                    + Apply(DivNoteDraft, notes) + FootnoteDrafts(doc.notes))
  {
    all := chunks;
    ghost var tables := Apply(t => TableDraft(t, tx), doc.tables);
    ghost var so := drafts;
    for i := 0 to |doc.tables|
      invariant so == drafts + tables[..i] && all == Number(sourceId, so)
    {
      all := Emit(all, sourceId, so, TableDraft(doc.tables[i], tx));
      so := so + [tables[i]];
    }
    ghost var divNotes := Apply(DivNoteDraft, notes);
    ghost var withTables := so;
    for i := 0 to |notes|
      invariant so == withTables + divNotes[..i] && all == Number(sourceId, so)
    {
      all := Emit(all, sourceId, so, DivNoteDraft(notes[i]));
      so := so + [divNotes[i]];
    }
    assert so == drafts + tables + divNotes;
    if doc.notes != [] {
      all := Emit(all, sourceId, so, Draft(NoteChunk, "footnotes", RenderNotes(doc.notes), false));
    } else {
      assert so + FootnoteDrafts(doc.notes) == so;
    }
  }

  lemma ProseDraftsSnoc(units: seq<Section>, unit: Section, th: Thresholds, tx: Text)
    ensures ProseDrafts(units + [unit], th, tx) == ProseDrafts(units, th, tx) + UnitDrafts(unit, th, tx)
  {
    var f := (u: Section) => UnitDrafts(u, th, tx);
    assert Apply(f, units + [unit]) == Apply(f, units) + [f(unit)];
    FlattenConcat(Apply(f, units), [f(unit)]);
    assert Flatten([f(unit)]) == f(unit) + Flatten<Draft>([]);
  }
}
