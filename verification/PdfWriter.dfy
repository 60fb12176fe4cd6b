/** The PDF file layout: indirect objects, the cross-reference table and the trailer of sections 7.5.4 and
    7.5.5 of ISO 32000-1, built object by object with the offsets taken on the way. The lemmas say where
    everything stands in the file: each object at its recorded offset, the table where `startxref` says,
    and every entry of the table in its twenty bytes. Bytes are characters below 256. */
module PdfWriter {
  import opened Chars
  import opened Decimal

  // ---------------------------------------------------------------------------------------
  // The objects

  const CATALOG := "<< /Type /Catalog /Pages 2 0 R >>"
  const FONT := "<< /Type /Font /Subtype /Type1 /BaseFont " + "/Helvetica >>"
  const BOLD_FONT := "<< /Type /Font /Subtype /Type1 /BaseFont " + "/Helvetica-Bold >>"
  const KIDS_OPEN := "<< /Type /Pages /Kids ["
  const PAGE_OPEN := "<< /Type /Page /Parent 2 0 R " + "/MediaBox [0 0 612 792] "
                     + "/Resources << /Font << /F1 3 0 R /F2 4 0 R >> >> " + "/Contents "
  const LENGTH_OPEN := "<< /Length "
  const STREAM_OPEN := " >>\nstream\n"
  const STREAM_CLOSE := "\nendstream"

  function Kids(pages: nat): string {
    if pages == 0 then ""
    else if pages == 1 then Numeral(5) + " 0 R"
    else Kids(pages - 1) + " " + Numeral(5 + (pages - 1) * 2) + " 0 R"
  }

  function PagesBody(pages: nat): string {
    KIDS_OPEN + Kids(pages) + "] /Count " + Numeral(pages) + " >>"
  }

  function PageBody(streamId: nat): string {
    PAGE_OPEN + Numeral(streamId) + " 0 R >>"
  }

  function JoinLines(lines: seq<string>): string {
    if lines == [] then ""
    else if |lines| == 1 then lines[0]
    else lines[0] + "\n" + JoinLines(lines[1..])
  }

  function Stream(content: seq<string>): string { Latin1(JoinLines(content)) }

  function StreamBody(stream: string): string {
    LENGTH_OPEN + Numeral(|stream|) + STREAM_OPEN + stream + STREAM_CLOSE
  }

  /** The objects after the first `k` pages were added; object ids count from one. */
  function ObjectsFor(pages: seq<seq<string>>, k: nat): (objects: seq<string>)
    requires k <= |pages|
    ensures |objects| == 4 + 2 * k
  {
    if k == 0 then [CATALOG, PagesBody(|pages|), FONT, BOLD_FONT]
    else ObjectsFor(pages, k - 1) + [PageBody(5 + (k - 1) * 2 + 1), StreamBody(Stream(pages[k - 1]))]
  }

  lemma {:induction false} ObjectsInPlace(pages: seq<seq<string>>, k: nat, i: nat)
    requires i < k <= |pages|
    ensures ObjectsFor(pages, k)[4 + 2 * i] == PageBody(6 + 2 * i)
    ensures ObjectsFor(pages, k)[5 + 2 * i] == StreamBody(Stream(pages[i]))
    ensures ObjectsFor(pages, k)[..4] == [CATALOG, PagesBody(|pages|), FONT, BOLD_FONT]
  {
    if i < k - 1 {
      ObjectsInPlace(pages, k - 1, i);
    } else if k > 1 {
      ObjectsInPlace(pages, k - 1, 0);
    }
  }

  // ---------------------------------------------------------------------------------------
  // The file

  const HEADER := "%PDF-1.4\n"
  const XREF_OPEN := "xref\n0 "
  const FREE_ENTRY := "0000000000 65535 f \n"

  function Opening(id: nat): string { Numeral(id) + " 0 obj\n" }

  function Frame(id: nat, body: string): string { Opening(id) + body + "\nendobj\n" }

  /** The frames of the first `k` objects. */
  function Frames(objects: seq<string>, k: nat): string
    requires k <= |objects|
  {
    if k == 0 then "" else Frames(objects, k - 1) + Frame(k, objects[k - 1])
  }

  /** Where the frame of object `id` begins. */
  function Offset(objects: seq<string>, id: nat): nat
    requires 1 <= id <= |objects|
  {
    |HEADER| + |Frames(objects, id - 1)|
  }

  function XrefAt(objects: seq<string>): nat { |HEADER| + |Frames(objects, |objects|)| }

  function Entry(offset: nat): string { Padded(offset) + " 00000 n \n" }

  function Entries(objects: seq<string>, k: nat): string
    requires k <= |objects|
  {
    if k == 0 then "" else Entries(objects, k - 1) + Entry(Offset(objects, k))
  }

  function XrefTable(objects: seq<string>): string {
    XREF_OPEN + Numeral(|objects| + 1) + "\n" + FREE_ENTRY + Entries(objects, |objects|)
  }

  function Trailer(objects: seq<string>): string {
    "trailer\n<< /Size " + Numeral(|objects| + 1) + " /Root 1 0 R >>\nstartxref\n"
    + Numeral(XrefAt(objects)) + "\n%%EOF\n"
  }

  function File(objects: seq<string>): string {
    HEADER + Frames(objects, |objects|) + XrefTable(objects) + Trailer(objects)
  }

  /** First phase: the numbered objects. */
  method BuildObjects(pages: seq<seq<string>>) returns (objects: seq<string>)
    ensures objects == ObjectsFor(pages, |pages|)
  {
    var kids := "";
    for index := 0 to |pages|
      invariant kids == Kids(index)
    {
      kids := (if index == 0 then "" else kids + " ") + Numeral(5 + index * 2) + " 0 R";
    }
    objects := [CATALOG, KIDS_OPEN + kids + "] /Count " + Numeral(|pages|) + " >>", FONT, BOLD_FONT];
    for index := 0 to |pages|
      invariant objects == ObjectsFor(pages, index)
    {
      var pageObjectId := 5 + index * 2;
      var streamObjectId := pageObjectId + 1;
      var stream := Stream(pages[index]);
      objects := objects + [PageBody(streamObjectId), StreamBody(stream)];
    }
  }

  /** Second phase: the header and the object frames, each offset taken before its frame. */
  method WriteFrames(objects: seq<string>) returns (output: string, offsets: seq<nat>)
    ensures output == HEADER + Frames(objects, |objects|)
    ensures |offsets| == |objects| + 1
    ensures forall j :: 1 <= j <= |objects| ==> offsets[j] == Offset(objects, j)
  {
    output := HEADER;
    offsets := [0];
    for i := 0 to |objects|
      invariant output == HEADER + Frames(objects, i)
      invariant |offsets| == i + 1
      invariant forall j :: 1 <= j <= i ==> offsets[j] == Offset(objects, j)
    {
      offsets := offsets + [|output|];
      ghost var before := output;
      output := output + Opening(i + 1);
      output := output + objects[i];
      output := output + "\nendobj\n";
      assert output == before + Frame(i + 1, objects[i]);
      assert output == HEADER + (Frames(objects, i) + Frame(i + 1, objects[i]));
    }
  }

  /** Third phase: the cross-reference entries. */
  method WriteEntries(objects: seq<string>, offsets: seq<nat>) returns (entries: string)
    requires |offsets| == |objects| + 1
    requires forall j :: 1 <= j <= |objects| ==> offsets[j] == Offset(objects, j)
    ensures entries == Entries(objects, |objects|)
  {
    entries := "";
    for i := 1 to |offsets|
      invariant entries == Entries(objects, i - 1)
    {
      entries := entries + Entry(offsets[i]);
    }
  }

  /** Fourth phase: the table and, after it, the trailer with the position of the table. */
  method WriteTable(objects: seq<string>, offsets: seq<nat>, xrefAt: nat) returns (output: string)
    requires |offsets| == |objects| + 1 && xrefAt == XrefAt(objects)
    requires forall j :: 1 <= j <= |objects| ==> offsets[j] == Offset(objects, j)
    ensures output == XrefTable(objects) + Trailer(objects)
  {
    var entries := WriteEntries(objects, offsets);
    output := XREF_OPEN + Numeral(|objects| + 1) + "\n" + FREE_ENTRY + entries;
    output := output + ("trailer\n<< /Size " + Numeral(|objects| + 1) + " /Root 1 0 R >>\nstartxref\n"
                        + Numeral(xrefAt) + "\n%%EOF\n");
  }

  method BuildPdf(pages: seq<seq<string>>) returns (output: string)
    ensures output == File(ObjectsFor(pages, |pages|))
  {
    var objects := BuildObjects(pages);
    var offsets;
    output, offsets := WriteFrames(objects);
    var table := WriteTable(objects, offsets, |output|);
    output := output + table;
  }

  // ---------------------------------------------------------------------------------------
  // Reading the file back, by the offsets it records

  const TAIL := "\n%%EOF\n"

  /** The rest of `s` from position `at` on; nothing when `at` is outside. */
  function From(s: string, at: nat): string { if at <= |s| then s[at..] else "" }

  function StartXref(file: string): nat {
    TrailingNumber(file[..if |file| >= |TAIL| then |file| - |TAIL| else 0])
  }

  /** Where the line after a numbered one begins: past `skip` characters, the number and a newline. */
  function NextLine(s: string, at: nat, skip: nat): nat {
    at + skip + DigitRun(From(s, at + skip)) + 1
  }

  /** The position of the first cross-reference entry. */
  function TableStart(file: string): nat { NextLine(file, StartXref(file), |XREF_OPEN|) }

  /** The offset recorded in entry `id`, the entries being 20 bytes each. */
  function RecordedOffset(file: string, id: nat): nat { RecordedAt(file, TableStart(file), id) }

  function RecordedAt(file: string, table: nat, id: nat): nat { LeadingNumber(From(file, table + 20 * id)) }

  lemma {:induction false} FramesGrow(objects: seq<string>, k: nat, n: nat)
    requires k <= n <= |objects|
    ensures |Frames(objects, k)| <= |Frames(objects, n)|
    ensures Frames(objects, n)[..|Frames(objects, k)|] == Frames(objects, k)
  {
    if k < n {
      FramesGrow(objects, k, n - 1);
    }
  }

  /** `text` stands in `s` at position `at`. */
  predicate Stands(s: string, at: nat, text: string) {
    at + |text| <= |s| && s[at..at + |text|] == text
  }

  lemma StandsInParts(a: string, b: string, c: string, d: string, x: string, t: string)
    ensures Stands(a + (b + c + d) + x + t, |a| + |b|, c)
  {
    var s := a + (b + c + d) + x + t;
    assert s == (a + b) + c + (d + x + t);
  }

  /** Every recorded offset is the exact position of its own object. */
  lemma ObjectAtOffset(objects: seq<string>, id: nat)
    requires 1 <= id <= |objects|
    ensures Stands(File(objects), Offset(objects, id), Frame(id, objects[id - 1]))
  {
    var frame, before := Frame(id, objects[id - 1]), Frames(objects, id - 1);
    assert Frames(objects, id) == before + frame;
    FramesGrow(objects, id, |objects|);
    var later := Frames(objects, |objects|)[|before + frame|..];
    assert Frames(objects, |objects|) == before + frame + later;
    StandsInParts(HEADER, before, frame, later, XrefTable(objects), Trailer(objects));
  }

  lemma XrefPosition(objects: seq<string>)
    ensures XrefAt(objects) <= |File(objects)|
    ensures File(objects)[XrefAt(objects)..] == XrefTable(objects) + Trailer(objects)
  {
    var body := HEADER + Frames(objects, |objects|);
    assert File(objects) == body + (XrefTable(objects) + Trailer(objects));
  }

  /** `startxref` holds the position of the keyword `xref`. */
  lemma StartXrefIsRight(objects: seq<string>)
    ensures StartXref(File(objects)) == XrefAt(objects)
    ensures From(File(objects), StartXref(File(objects))) == XrefTable(objects) + Trailer(objects)
  {
    var front := HEADER + Frames(objects, |objects|) + XrefTable(objects)
                 + ("trailer\n<< /Size " + Numeral(|objects| + 1) + " /Root 1 0 R >>\nstartxref\n");
    assert File(objects) == front + Numeral(XrefAt(objects)) + TAIL;
    assert front[|front| - 1] == '\n';
    var file := File(objects);
    assert file[..|file| - |TAIL|] == front + Numeral(XrefAt(objects));
    TrailingNumeral(front, XrefAt(objects));
    XrefPosition(objects);
  }

  lemma EntryLength(offset: nat)
    requires offset < 10_000_000_000
    ensures |Entry(offset)| == 20
  {
    PaddedLength(offset);
  }

  lemma {:induction false} EntriesAreTwentyBytes(objects: seq<string>, k: nat, n: nat)
    requires 1 <= k <= n <= |objects|
    requires forall id :: 1 <= id <= n ==> Offset(objects, id) < 10_000_000_000
    ensures |Entries(objects, n)| == 20 * n
    ensures Entries(objects, n)[20 * (k - 1)..20 * k] == Entry(Offset(objects, k))
  {
    EntryLength(Offset(objects, n));
    var front, last := Entries(objects, n - 1), Entry(Offset(objects, n));
    if n > 1 {
      EntriesAreTwentyBytes(objects, if k < n then k else 1, n - 1);
    }
    assert |front| == 20 * (n - 1);
  }

  lemma OffsetsAreOrdered(objects: seq<string>, i: nat, j: nat)
    requires 1 <= i <= j <= |objects|
    ensures Offset(objects, i) <= Offset(objects, j)
  {
    FramesGrow(objects, i - 1, j - 1);
  }

  lemma AssociateTable(a: string, b: string, c: string, d: string, e: string)
    ensures (a + b + "\n" + c + d) + e == a + (b + ("\n" + (c + d + e)))
  {}

  lemma NumberAt(s: string, at: nat, n: nat, rest: string)
    requires at <= |s| && s[at..] == Numeral(n) + ("\n" + rest)
    ensures DigitRun(From(s, at)) == |Numeral(n)|
  {
    LeadingNumeral(n, "\n" + rest);
  }

  lemma SkipThree(s: string, at: nat, a: string, b: string, c: string, rest: string)
    requires at <= |s| && s[at..] == a + (b + (c + rest))
    ensures at + |a| <= |s| && s[at + |a|..] == b + (c + rest)
    ensures at + |a| + |b| + |c| <= |s| && s[at + |a| + |b| + |c|..] == rest
  {
  }

  lemma AfterNumberedLine(s: string, at: nat, opening: string, n: nat, rest: string)
    requires at <= |s| && s[at..] == opening + (Numeral(n) + ("\n" + rest))
    ensures From(s, NextLine(s, at, |opening|)) == rest
  {
    SkipThree(s, at, opening, Numeral(n), "\n", rest);
    NumberAt(s, at + |opening|, n, rest);
  }

  function EntryTable(objects: seq<string>): string {
    FREE_ENTRY + Entries(objects, |objects|) + Trailer(objects)
  }

  lemma TableForm(objects: seq<string>)
    ensures XrefTable(objects) + Trailer(objects) == XREF_OPEN + (Numeral(|objects| + 1) + ("\n" + EntryTable(objects)))
  {
    AssociateTable(XREF_OPEN, Numeral(|objects| + 1), FREE_ENTRY, Entries(objects, |objects|), Trailer(objects));
  }

  lemma TableStartIsRight(objects: seq<string>)
    ensures From(File(objects), TableStart(File(objects))) == EntryTable(objects)
  {
    StartXrefIsRight(objects);
    XrefPosition(objects);
    TableForm(objects);
    AfterNumberedLine(File(objects), XrefAt(objects), XREF_OPEN, |objects| + 1, EntryTable(objects));
  }

  /** The cross-reference table is right: as long as the last object begins below 10^10, entry
      `id` records the position of "id 0 obj" for every object. */
  lemma XrefIsRight(objects: seq<string>, id: nat)
    requires 1 <= id <= |objects|
    requires Offset(objects, |objects|) < 10_000_000_000
    ensures RecordedOffset(File(objects), id) == Offset(objects, id)
    ensures Stands(File(objects), RecordedOffset(File(objects), id), Opening(id) + objects[id - 1] + "\nendobj\n")
  {
    EntryRecordsOffset(objects, id);
    ObjectAtOffset(objects, id);
  }

  lemma EntryRecordsOffset(objects: seq<string>, id: nat)
    requires 1 <= id <= |objects|
    requires Offset(objects, |objects|) < 10_000_000_000
    ensures RecordedOffset(File(objects), id) == Offset(objects, id)
  {
    TableStartIsRight(objects);
    EntryInTable(File(objects), TableStart(File(objects)), objects, id);
  }

  lemma EntryStands(objects: seq<string>, id: nat)
    requires 1 <= id <= |objects| && Offset(objects, |objects|) < 10_000_000_000
    ensures 20 * id <= |Entries(objects, |objects|)| && Offset(objects, id) < 10_000_000_000
    ensures Entries(objects, |objects|)[20 * (id - 1)..20 * id] == Entry(Offset(objects, id))
  {
    forall j | 1 <= j <= |objects| ensures Offset(objects, j) < 10_000_000_000 {
      OffsetsAreOrdered(objects, j, |objects|);
    }
    EntriesAreTwentyBytes(objects, id, |objects|);
  }

  lemma EntryInTable(file: string, table: nat, objects: seq<string>, id: nat)
    requires 1 <= id <= |objects|
    requires Offset(objects, |objects|) < 10_000_000_000
    requires From(file, table) == EntryTable(objects)
    ensures RecordedAt(file, table, id) == Offset(objects, id)
  {
    EntryIsInTable(objects, id);
    RecordedIn(file, table, EntryTable(objects), id);
  }

  lemma RecordedIn(file: string, table: nat, entries: string, id: nat)
    requires From(file, table) == entries && 20 * id <= |entries|
    ensures RecordedAt(file, table, id) == LeadingNumber(entries[20 * id..])
  {
    FromFrom(file, table, 20 * id);
    SameNumber(From(file, table + 20 * id), entries[20 * id..]);
  }

  lemma SameNumber(a: string, b: string)
    requires a == b
    ensures LeadingNumber(a) == LeadingNumber(b)
  {}

  lemma EntryIsInTable(objects: seq<string>, id: nat)
    requires 1 <= id <= |objects| && Offset(objects, |objects|) < 10_000_000_000
    ensures 20 * id <= |EntryTable(objects)| && LeadingNumber(EntryTable(objects)[20 * id..]) == Offset(objects, id)
  {
    EntryStands(objects, id);
    EntryIsRead(Entries(objects, |objects|), Trailer(objects), id, Offset(objects, id));
  }

  lemma FromFrom(file: string, table: nat, n: nat)
    ensures n <= |From(file, table)| ==> From(file, table + n) == From(file, table)[n..]
  {}

  lemma EntryIsRead(entries: string, trailer: string, id: nat, offset: nat)
    requires 1 <= id && 20 * id <= |entries|
    requires entries[20 * (id - 1)..20 * id] == Entry(offset)
    requires offset < 10_000_000_000
    ensures LeadingNumber((FREE_ENTRY + entries + trailer)[20 * id..]) == offset
  {
    var table := FREE_ENTRY + entries + trailer;
    PaddedLength(offset);
    ValueOfPadded(offset);
    assert |FREE_ENTRY| == 20;
    var here := table[20 * id..];
    assert here == entries[20 * (id - 1)..20 * id] + entries[20 * id..] + trailer;
    assert here == Padded(offset) + (" 00000 n \n" + entries[20 * id..] + trailer);
    assert forall i :: 0 <= i < 10 ==> here[i] == Padded(offset)[i];
    assert here[10] == ' ';
    assert DigitRun(here) == 10;
    assert here[..10] == Padded(offset);
  }
}
