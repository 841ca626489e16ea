/** What chunking promises: nothing a reader could quote is lost, every section is accounted for,
    units are long enough, prose chunks stay inside the budget, and ids are distinct. */
module ChunkLaws {
  import opened Seqs
  import opened Chunk

  function Paragraphs(units: seq<Section>): seq<string> {
    if units == [] then []
    else Paragraphs(units[..|units| - 1]) + units[|units| - 1].paragraphs
  }

  function SurvivingParagraphs(sections: seq<Section>, th: Thresholds, tx: Text): seq<string> {
    if sections == [] then []
    else SurvivingParagraphs(sections[..|sections| - 1], th, tx)
         + (if FateOf(sections[|sections| - 1], th, tx) == Survives then sections[|sections| - 1].paragraphs
            else [])
  }

  function Waiting(st: Sorting): seq<string> {
    if st.pending.Some? then st.pending.value.paragraphs else []
  }

  // ---------- conservation and accounting ----------

  function Held(st: Sorting): seq<string> { Paragraphs(st.keep) + Waiting(st) }

  function Sections(st: Sorting): nat {
    |st.keep| + st.merged + (if st.pending.Some? then 1 else 0) + st.dropped + |st.notes|
  }

  ghost predicate LongEnough(st: Sorting, th: Thresholds) {
    forall u :: u in st.keep ==> !TooSmall(u, th)
  }

  lemma AbsorbConserves(st: Sorting, s: Section, th: Thresholds, tx: Text)
    requires LongEnough(st, th)
    ensures var next := Absorb(st, s, th, tx);
      && Held(next) == Held(st) + (if FateOf(s, th, tx) == Survives then s.paragraphs else [])
      && Sections(next) == Sections(st) + 1 && LongEnough(next, th)
  {
    hide TooSmall, Strip, FateOf;
    var next := Absorb(st, s, th, tx);
    if next.keep != st.keep {
      assert next.keep[..|next.keep| - 1] == st.keep;
    }
  }

  lemma {:induction false} SortOutConserves(sections: seq<Section>, th: Thresholds, tx: Text)
    ensures var st := SortOut(sections, th, tx);
      Held(st) == SurvivingParagraphs(sections, th, tx) && Sections(st) == |sections| && LongEnough(st, th)
  {
    if sections != [] {
      hide Absorb, TooSmall, FateOf, Held, Sections;
      var front, last := sections[..|sections| - 1], sections[|sections| - 1];
      SortOutConserves(front, th, tx);
      AbsorbConserves(SortOut(front, th, tx), last, th, tx);
    }
  }

  lemma SettleInserts(st: Sorting) returns (at: nat, heads: seq<string>)
    ensures |heads| <= 1
    ensures heads != [] ==> st.pending.Some? && heads == [st.pending.value.head]
    ensures InsertedAt(Paragraphs(Settle(st).keep), Paragraphs(st.keep) + Waiting(st), at, heads)
  {
    at := |Paragraphs(st.keep)|;
    heads := if st.pending.Some? && st.keep != [] then HeadLine(st.pending.value) else [];
    if st.pending.Some? {
      if st.keep == [] {
        assert [st.pending.value][..0] == [];
      } else {
        var n := |st.keep| - 1;
        assert Settle(st).keep[..n] == st.keep[..n];
      }
    }
  }

  /** The prose units hold the surviving sections' paragraphs, in order, with at most one line
      inserted: the head of the unit that was still waiting when the sections ran out. */
  lemma NoParagraphLost(sections: seq<Section>, th: Thresholds, tx: Text)
      returns (at: nat, heads: seq<string>)
    ensures |heads| <= 1
    ensures InsertedAt(Paragraphs(Settle(SortOut(sections, th, tx)).keep),
                       SurvivingParagraphs(sections, th, tx), at, heads)
    ensures heads != [] ==> SortOut(sections, th, tx).pending.Some?
                            && heads == [SortOut(sections, th, tx).pending.value.head]
  {
    SortOutConserves(sections, th, tx);
    at, heads := SettleInserts(SortOut(sections, th, tx));
  }

  predicate InsertedAt(longer: seq<string>, base: seq<string>, at: nat, inserted: seq<string>) {
    at <= |base| && longer == base[..at] + inserted + base[at..]
  }

  /** Every section is kept, merged, dropped or a note, and counted once. */
  lemma {:induction false} EverySectionCounted(sections: seq<Section>, th: Thresholds, tx: Text)
    ensures var st := Settle(SortOut(sections, th, tx));
      |st.keep| + st.merged + st.dropped + |st.notes| == |sections|
  {
    SortOutConserves(sections, th, tx);
  }

  lemma {:induction false} JoinGrows(more: seq<string>, paragraphs: seq<string>)
    ensures |Join(BLANK_LINE, paragraphs + more)| >= |Join(BLANK_LINE, paragraphs)|
  {
    if paragraphs != [] {
      SizeConcat(paragraphs, more);
      SizeIsJoinedLength(paragraphs);
      SizeIsJoinedLength(paragraphs + more);
    }
  }

  /** A unit below the merge threshold survives only when there is nothing to merge it with. */
  lemma UnitsAreLongEnough(sections: seq<Section>, th: Thresholds, tx: Text)
    ensures var keep := Settle(SortOut(sections, th, tx)).keep;
      (exists u :: u in keep && TooSmall(u, th)) ==> |keep| == 1
  {
    SortOutConserves(sections, th, tx);
    var st := SortOut(sections, th, tx);
    hide SortOut;
    if st.pending.Some? && st.keep != [] {
      var last := st.keep[|st.keep| - 1];
      assert last in st.keep;
      LongerIsLongEnough(last, HeadLine(st.pending.value) + st.pending.value.paragraphs, th);
      hide TooSmall;
      var keep := Settle(st).keep;
      forall u | u in keep ensures !TooSmall(u, th) {
        assert u == keep[|keep| - 1] || u in st.keep;
      }
    }
  }

  lemma LongerIsLongEnough(unit: Section, more: seq<string>, th: Thresholds)
    requires !TooSmall(unit, th)
    ensures !TooSmall(Section(unit.head, unit.paragraphs + more), th)
  {
    JoinGrows(more, unit.paragraphs);
  }

  // ---------- every paragraph and every head can be quoted ----------

  lemma {:induction false} JoinContains(separator: string, parts: seq<string>, part: string)
    requires part in parts
    ensures Occurs(part, Join(separator, parts))
  {
    if |parts| == 1 {
      OccursSelf(part);
    } else if part == parts[0] {
      OccursSelf(part);
      OccursInside(part, "", part, separator + Join(separator, parts[1..]));
      assert "" + part + (separator + Join(separator, parts[1..])) == Join(separator, parts);
    } else {
      JoinContains(separator, parts[1..], part);
      OccursInside(part, parts[0] + separator, Join(separator, parts[1..]), "");
      assert parts[0] + separator + Join(separator, parts[1..]) + "" == Join(separator, parts);
    }
  }

  lemma RenderContains(head: string, group: seq<string>, part: string)
    requires part in group || Occurs(part, head)
    ensures Occurs(part, RenderSection(head, group))
  {
    var body := Join(BLANK_LINE, group);
    if part in group {
      JoinContains(BLANK_LINE, group, part);
      OccursInside(part, head + BLANK_LINE, body, "");
      assert head + BLANK_LINE + body + "" == head + BLANK_LINE + body;
      if body == "" {
        assert part == "" && OccursAt(part, RenderSection(head, group), 0);
      }
    } else {
      OccursInside(part, "", head, BLANK_LINE + body);
      assert "" + head + (BLANK_LINE + body) == head + BLANK_LINE + body;
      if head == "" {
        assert part == "" && OccursAt(part, RenderSection(head, group), 0);
      }
    }
  }

  lemma SplitKeepsParagraphs(paragraphs: seq<string>, budget: int)
    ensures Flatten(Split(paragraphs, budget)) == paragraphs && Split(paragraphs, budget) != []
  {
    if paragraphs == [] {
      assert Flatten([[]]) == [] + Flatten<string>([]);
    } else {
      PackIsPacking([], paragraphs, budget);
      assert [] + paragraphs == paragraphs;
    }
  }

  lemma {:induction false} InParagraphs(units: seq<Section>, p: string)
    ensures p in Paragraphs(units) <==> exists u :: u in units && p in u.paragraphs
  {
    if units != [] {
      var n := |units| - 1;
      InParagraphs(units[..n], p);
      assert forall u :: u in units <==> u in units[..n] || u == units[n];
    }
  }

  lemma GroupInUnit(unit: Section, th: Thresholds, tx: Text, group: seq<string>)
    requires group in Split(unit.paragraphs, th.maxChunkChars)
    ensures ProseDraft(unit.head, group, th, tx) in UnitDrafts(unit, th, tx)
  {
    var groups := Split(unit.paragraphs, th.maxChunkChars);
    var j :| 0 <= j < |groups| && groups[j] == group;
    assert UnitDrafts(unit, th, tx)[j] == ProseDraft(unit.head, group, th, tx);
  }

  lemma UnitInProse(units: seq<Section>, th: Thresholds, tx: Text, unit: Section, d: Draft)
    requires unit in units && d in UnitDrafts(unit, th, tx)
    ensures d in ProseDrafts(units, th, tx)
  {
    var parts := Apply(u => UnitDrafts(u, th, tx), units);
    var i :| 0 <= i < |units| && units[i] == unit;
    assert parts[i] == UnitDrafts(unit, th, tx);
    InFlatten(parts, d);
  }

  /** The prose draft of one group of a kept unit is among the document's drafts. */
  lemma {:induction false} GroupIsDrafted(doc: Document, th: Thresholds, tx: Text, unit: Section, group: seq<string>)
    requires unit in Settle(SortOut(doc.sections, th, tx)).keep
    requires group in Split(unit.paragraphs, th.maxChunkChars)
    ensures ProseDraft(unit.head, group, th, tx) in Drafts(doc, th, tx)
  {
    GroupInUnit(unit, th, tx, group);
    UnitInProse(Settle(SortOut(doc.sections, th, tx)).keep, th, tx, unit,
                ProseDraft(unit.head, group, th, tx));
  }

  ghost predicate Quotable(part: string, drafts: seq<Draft>) {
    exists d :: d in drafts && d.kind == Prose && Occurs(part, d.text)
  }

  /** Text a kept unit holds, in a paragraph or in its head, can be quoted from a prose chunk. */
  lemma UnitIsQuotable(doc: Document, th: Thresholds, tx: Text, unit: Section, part: string)
    requires unit in Settle(SortOut(doc.sections, th, tx)).keep
    requires part in unit.paragraphs || Occurs(part, unit.head)
    ensures Quotable(part, Drafts(doc, th, tx))
  {
    var groups := Split(unit.paragraphs, th.maxChunkChars);
    SplitKeepsParagraphs(unit.paragraphs, th.maxChunkChars);
    var group := groups[0];
    if part in unit.paragraphs {
      InFlatten(groups, part);
      group :| group in groups && part in group;
    }
    GroupIsDrafted(doc, th, tx, unit, group);
    RenderContains(unit.head, group, part);
  }

  lemma StripIsSlice(s: string, space: char -> bool) returns (from: nat, to: nat)
    ensures from <= to <= |s| && Strip(s, space) == s[from..to]
    ensures forall i :: 0 <= i < from || to <= i < |s| ==> space(s[i])
  {
    var inner := DropFirst(s, space);
    assert Strip(s, space) == DropLast(inner, space);
    hide Strip, DropFirst, DropLast;
    from := DropFirstIsSuffix(s, space);
    var n := DropLastIsPrefix(inner, space);
    to := from + n;
    assert inner[..n] == s[from..to];
    forall i | to <= i < |s| ensures space(s[i]) {
      assert s[i] == inner[i - from];
    }
  }

  lemma {:induction false} DropFirstIsSuffix(s: string, space: char -> bool) returns (from: nat)
    ensures from <= |s| && DropFirst(s, space) == s[from..]
    ensures forall i :: 0 <= i < from ==> space(s[i])
  {
    from := 0;
    if s != "" && space(s[0]) {
      from := DropFirstIsSuffix(s[1..], space);
      from := from + 1;
    }
  }

  lemma {:induction false} DropLastIsPrefix(s: string, space: char -> bool) returns (to: nat)
    ensures to <= |s| && DropLast(s, space) == s[..to]
    ensures forall i :: to <= i < |s| ==> space(s[i])
  {
    to := |s|;
    if s != "" && space(s[|s| - 1]) {
      to := DropLastIsPrefix(s[..|s| - 1], space);
    }
  }

  /** No space at either end, so stripping around it cannot cut into it. */
  predicate Trimmed(s: string, space: char -> bool) {
    s == "" || (!space(s[0]) && !space(s[|s| - 1]))
  }

  lemma StripKeepsTrimmed(part: string, whole: string, space: char -> bool)
    requires Trimmed(part, space) && Occurs(part, whole)
    ensures Occurs(part, Strip(whole, space))
  {
    var from, to := StripIsSlice(whole, space);
    if part == "" {
      assert OccursAt(part, Strip(whole, space), 0);
    } else {
      var at: nat :| OccursAt(part, whole, at);
      assert whole[at] == part[0] && whole[at + |part| - 1] == part[|part| - 1];
      assert from <= at && at + |part| <= to;
      SliceOfSlice(whole, from, to, at - from, at - from + |part|);
      assert OccursAt(part, Strip(whole, space), at - from);
    }
  }

  lemma {:induction false} StripIsTrimmed(s: string, space: char -> bool)
    ensures Trimmed(Strip(s, space), space) && Occurs(Strip(s, space), s)
  {
    var inner := DropFirst(s, space);
    DropFirstStops(s, space);
    DropLastStops(inner, space);
    var n := DropLastIsPrefix(inner, space);
    var from, to := StripIsSlice(s, space);
    assert OccursAt(Strip(s, space), s, from);
  }

  lemma {:induction false} DropFirstStops(s: string, space: char -> bool)
    ensures DropFirst(s, space) == "" || !space(DropFirst(s, space)[0])
  {
    if s != "" && space(s[0]) { DropFirstStops(s[1..], space); }
  }

  lemma {:induction false} DropLastStops(s: string, space: char -> bool)
    ensures DropLast(s, space) == "" || !space(DropLast(s, space)[|DropLast(s, space)| - 1])
  {
    if s != "" && space(s[|s| - 1]) { DropLastStops(s[..|s| - 1], space); }
  }

  ghost predicate HeadCarried(head: string, st: Sorting) {
    || (exists u :: u in st.keep && Occurs(head, u.head))
    || (st.pending.Some? && Occurs(head, st.pending.value.head))
  }

  lemma UnitCarriesHeads(st: Sorting, last: Section, tx: Text, head: string)
    requires Trimmed(head, tx.space)
    ensures st.pending.Some? && Occurs(head, st.pending.value.head) ==>
        Occurs(head, MergedWith(st.pending, last, tx).head)
    ensures Occurs(head, last.head) ==> Occurs(head, MergedWith(st.pending, last, tx).head)
  {
    hide Strip, Trimmed, Occurs;
    if st.pending.Some? {
      var joined := st.pending.value.head + BLANK_LINE + last.head;
      if Occurs(head, st.pending.value.head) {
        OccursInside(head, "", st.pending.value.head, BLANK_LINE + last.head);
        assert "" + st.pending.value.head + (BLANK_LINE + last.head) == joined;
        StripKeepsTrimmed(head, joined, tx.space);
      }
      if Occurs(head, last.head) {
        OccursInside(head, st.pending.value.head + BLANK_LINE, last.head, "");
        assert st.pending.value.head + BLANK_LINE + last.head + "" == joined;
        StripKeepsTrimmed(head, joined, tx.space);
      }
    }
  }

  lemma AbsorbCarries(st: Sorting, last: Section, th: Thresholds, tx: Text, head: string)
    requires Trimmed(head, tx.space)
    requires HeadCarried(head, st) || (FateOf(last, th, tx) == Survives && Occurs(head, last.head))
    ensures HeadCarried(head, Absorb(st, last, th, tx))
  {
    UnitCarriesHeads(st, last, tx, head);
    var unit, next := MergedWith(st.pending, last, tx), Absorb(st, last, th, tx);
    hide Strip, Trimmed, Occurs, TooSmall, RenderSection, IsNote, MergedWith;
    if exists u :: u in st.keep && Occurs(head, u.head) {
      var u :| u in st.keep && Occurs(head, u.head);
      assert u in next.keep;
    } else if FateOf(last, th, tx) == Survives {
      assert TooSmall(unit, th) || next.keep[|st.keep|] == unit;
    }
  }

  lemma {:induction false} HeadsAreCarried(sections: seq<Section>, th: Thresholds, tx: Text, section: Section)
    requires section in sections && FateOf(section, th, tx) == Survives
    ensures HeadCarried(Strip(section.head, tx.space), SortOut(sections, th, tx))
  {
    var n := |sections| - 1;
    StripIsTrimmed(section.head, tx.space);
    hide HeadCarried, FateOf, Absorb, Trimmed;
    if section != sections[n] {
      assert sections == sections[..n] + [sections[n]];
      HeadsAreCarried(sections[..n], th, tx, section);
    }
    AbsorbCarries(SortOut(sections[..n], th, tx), sections[n], th, tx, Strip(section.head, tx.space));
  }

  /** No text lost: every paragraph, and every head without its outer space, of every surviving
      section can be quoted from one prose chunk. */
  lemma NoTextLost(doc: Document, th: Thresholds, tx: Text, section: Section)
    requires section in doc.sections && FateOf(section, th, tx) == Survives
    ensures forall p :: p in section.paragraphs ==> Quotable(p, Drafts(doc, th, tx))
    ensures Quotable(Strip(section.head, tx.space), Drafts(doc, th, tx))
  {
    var st := SortOut(doc.sections, th, tx);
    var keep := Settle(st).keep;
    forall p | p in section.paragraphs ensures Quotable(p, Drafts(doc, th, tx)) {
      SurvivorsParagraphs(doc.sections, th, tx, section, p);
      var _, _ := NoParagraphLost(doc.sections, th, tx);
      assert p in Paragraphs(keep);
      InParagraphs(keep, p);
      var u :| u in keep && p in u.paragraphs;
      UnitIsQuotable(doc, th, tx, u, p);
    }
    var head := Strip(section.head, tx.space);
    HeadsAreCarried(doc.sections, th, tx, section);
    var u := SettleCarriesHead(st, head);
    UnitIsQuotable(doc, th, tx, u.0, u.1);
    var d :| d in Drafts(doc, th, tx) && d.kind == Prose && Occurs(u.1, d.text);
    OccursTransitive(head, u.1, d.text);
  }

  lemma SettleCarriesHead(st: Sorting, head: string) returns (carrier: (Section, string))
    requires HeadCarried(head, st)
    ensures carrier.0 in Settle(st).keep && Occurs(head, carrier.1)
    ensures carrier.1 in carrier.0.paragraphs || Occurs(carrier.1, carrier.0.head)
  {
    var keep := Settle(st).keep;
    if i :| 0 <= i < |st.keep| && Occurs(head, st.keep[i].head) {
      assert keep[i].head == st.keep[i].head;
      carrier := (keep[i], keep[i].head);
      OccursSelf(keep[i].head);
    } else {
      var p := st.pending.value;
      OccursSelf(p.head);
      if st.keep == [] {
        carrier := (p, p.head);
      } else if p.head == "" {
        carrier := (keep[0], "");
        assert OccursAt("", keep[0].head, 0);
      } else {
        carrier := (keep[|keep| - 1], p.head);
        assert HeadLine(p)[0] in keep[|keep| - 1].paragraphs;
      }
    }
  }

  lemma OccursTransitive(a: string, b: string, c: string)
    requires Occurs(a, b) && Occurs(b, c)
    ensures Occurs(a, c)
  {
    var i: nat :| OccursAt(a, b, i);
    var j: nat :| OccursAt(b, c, j);
    SliceOfSlice(c, j, j + |b|, i, i + |a|);
    assert OccursAt(a, c, j + i);
  }

  lemma {:induction false} SurvivorsParagraphs(
    sections: seq<Section>, th: Thresholds, tx: Text, section: Section, p: string)
    requires section in sections && FateOf(section, th, tx) == Survives && p in section.paragraphs
    ensures p in SurvivingParagraphs(sections, th, tx)
  {
    var n := |sections| - 1;
    if section in sections[..n] {
      SurvivorsParagraphs(sections[..n], th, tx, section, p);
    } else {
      assert section == sections[n];
    }
  }

  /** A caption the rules moved out of the prose is still quotable, from its own note chunk. */
  lemma NoteTextKept(doc: Document, th: Thresholds, tx: Text, section: Section, p: string)
    requires section in Settle(SortOut(doc.sections, th, tx)).notes && p in section.paragraphs
    ensures exists d :: d in Drafts(doc, th, tx) && d.kind == NoteChunk && d.section == section.head
                        && Occurs(p, d.text)
  {
    var notes := Settle(SortOut(doc.sections, th, tx)).notes;
    var i :| 0 <= i < |notes| && notes[i] == section;
    assert Apply(DivNoteDraft, notes)[i] == DivNoteDraft(section);
    JoinContains(" ", section.paragraphs, p);
    var note := Note(section.head, Join(" ", section.paragraphs));
    assert RenderNotes([note]) == Apply(RenderNote, [note])[0] == RenderNote(note);
    if note.marker != "" {
      OccursInside(p, "[" + note.marker + "] ", note.text, "");
      assert "[" + note.marker + "] " + note.text + "" == RenderNote(note);
    }
  }

  // ---------- budget, and identity ----------

  /** A prose chunk exceeds budget plus head only when it is one paragraph that is itself over. */
  lemma ProseStaysInBudget(unit: Section, th: Thresholds, tx: Text, group: seq<string>)
    requires group in Split(unit.paragraphs, th.maxChunkChars)
    ensures var d := ProseDraft(unit.head, group, th, tx);
      || |d.text| <= th.maxChunkChars + |unit.head| + 2
      || (group == [] && d.text == unit.head)
      || (|group| == 1 && |group[0]| > th.maxChunkChars)
  {
    if unit.paragraphs != [] {
      PackIsPacking([], unit.paragraphs, th.maxChunkChars);
    }
  }

  lemma {:induction false} DecimalInjective(a: nat, b: nat)
    requires Decimal(a) == Decimal(b)
    ensures a == b
  {
    DecimalShape(a);
    DecimalShape(b);
    if a >= 10 && b >= 10 {
      var da, db := Decimal(a), Decimal(b);
      assert da[..|da| - 1] == Decimal(a / 10) && db[..|db| - 1] == Decimal(b / 10);
      DecimalInjective(a / 10, b / 10);
      assert da[|da| - 1] == DIGITS[a % 10] && db[|db| - 1] == DIGITS[b % 10];
      DigitInjective(a % 10, b % 10);
    } else if a < 10 && b < 10 {
      DigitInjective(a, b);
    }
  }

  lemma {:induction false} DecimalShape(n: nat)
    ensures n < 10 ==> |Decimal(n)| == 1
    ensures n >= 10 ==> |Decimal(n)| > 1
  {
    if n >= 10 { DecimalShape(n / 10); }
  }

  lemma DigitInjective(a: nat, b: nat)
    requires a < 10 && b < 10 && DIGITS[a] == DIGITS[b]
    ensures a == b
  {}

  /** Distinct chunks of one source have distinct ids. */
  lemma ChunkIdsDistinct(sourceId: string, drafts: seq<Draft>)
    ensures Distinct(Apply((c: Chunk) => c.id, Number(sourceId, drafts)))
  {
    var ids := Apply((c: Chunk) => c.id, Number(sourceId, drafts));
    forall i, j | 0 <= i < j < |ids| ensures ids[i] != ids[j] {
      if ids[i] == ids[j] {
        var k := |sourceId| + 2;
        assert ids[i][k..] == Decimal(i + 1) && ids[j][k..] == Decimal(j + 1);
        DecimalInjective(i + 1, j + 1);
      }
    }
  }

  // ---------- tables keep their columns ----------

  lemma {:induction false} WidthIsWidest(rows: seq<seq<string>>)
    ensures forall row :: row in rows ==> |row| <= Width(rows)
    ensures rows != [] ==> exists row :: row in rows && |row| == Width(rows)
  {
    if rows != [] {
      WidthIsWidest(rows[1..]);
      assert forall row :: row in rows <==> row == rows[0] || row in rows[1..];
    }
  }

  /** Every row is padded to the widest row by appending blanks, so no cell changes column, and
      every cell is quotable from the rendered table. */
  lemma TableKeepsColumns(t: Table, tx: Text, row: seq<string>)
    requires row in t.rows
    ensures |Padded(row, Width(t.rows))| == Width(t.rows) && row <= Padded(row, Width(t.rows))
    ensures forall cell :: cell in row ==> Occurs(cell, RenderTable(t, tx))
  {
    WidthIsWidest(t.rows);
    var width := Width(t.rows);
    forall cell | cell in row ensures Occurs(cell, RenderTable(t, tx)) {
      JoinContains(" | ", Padded(row, width), cell);
      OccursInside(cell, "| ", Join(" | ", Padded(row, width)), " |");
      assert "| " + Join(" | ", Padded(row, width)) + " |" == TableLine(row, width);
      RowOccurs(t, tx, row, cell);
    }
  }

  lemma {:induction false} RowOccurs(t: Table, tx: Text, row: seq<string>, cell: string)
    requires row in t.rows && Occurs(cell, TableLine(row, Width(t.rows)))
    ensures Occurs(cell, RenderTable(t, tx))
  {
    var width := Width(t.rows);
    var lines := Apply(r => TableLine(r, width), t.rows);
    var i :| 0 <= i < |t.rows| && t.rows[i] == row;
    assert lines[i] == TableLine(row, width);
    JoinContains("\n", lines, TableLine(row, width));
    OccursTransitive(cell, TableLine(row, width), Join("\n", lines));
    var text := RenderTable(t, tx);
    var cut := |text| - |Join("\n", lines)|;
    OccursInside(cell, text[..cut], Join("\n", lines), "");
    assert text[..cut] + Join("\n", lines) + "" == text;
  }
}
