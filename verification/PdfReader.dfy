/** A reader of the report file, independent of its writer (sections 7.5 and 7.7 of ISO 32000-1). It starts at
    the end of the file, goes by the cross-reference table and the trailer to the objects, and follows the
    references from the catalogue to the page tree, the pages, their fonts and their content streams. Texts
    with numbers in them are read by templates: the numbers between given texts, and what comes after the
    last. The lemmas say that all of it is read as it was written. */
module PdfReader {
  import opened Sequences
  import opened Chars
  import opened Decimal
  import opened PdfWriter

  // ---------------------------------------------------------------------------------------
  // Texts with numbers between them

  predicate StartsWith(s: string, t: string) { |t| <= |s| && s[..|t|] == t }

  /** The numbers between the given texts, and what follows the last text. */
  function ReadFields(s: string, texts: seq<string>): (r: Option<(seq<nat>, string)>)
    requires texts != []
    ensures r.Some? ==> |r.value.0| == |texts| - 1
    decreases |s|
  {
    if !StartsWith(s, texts[0]) then None
    else
      var rest := s[|texts[0]|..];
      if |texts| == 1 then Some(([], rest))
      else if DigitRun(rest) == 0 then None
      else match ReadFields(rest[DigitRun(rest)..], texts[1..])
        case None => None
        case Some(found) => Some(([LeadingNumber(rest)] + found.0, found.1))
  }

  function Fill(texts: seq<string>, numbers: seq<nat>): string
    requires |texts| == |numbers| + 1
    decreases |numbers|
  {
    if numbers == [] then texts[0] else texts[0] + (Numeral(numbers[0]) + Fill(texts[1..], numbers[1..]))
  }

  predicate Separates(texts: seq<string>) {
    forall i :: 1 <= i < |texts| ==> texts[i] != "" && !IsDigit(texts[i][0])
  }

  lemma FillStart(texts: seq<string>, numbers: seq<nat>)
    requires |texts| == |numbers| + 1 && texts[0] != ""
    ensures Fill(texts, numbers) != "" && Fill(texts, numbers)[0] == texts[0][0]
  {}

  lemma FieldFirst(text: string, number: string, later: string)
    ensures StartsWith(text + (number + later), text) && (text + (number + later))[|text|..] == number + later
  {}

  lemma OneField(texts: seq<string>, n: nat, later: string, numbers: seq<nat>, rest: string)
    requires |texts| > 1 && later != "" && !IsDigit(later[0])
    requires ReadFields(later, texts[1..]) == Some((numbers, rest))
    ensures ReadFields(texts[0] + (Numeral(n) + later), texts) == Some(([n] + numbers, rest))
  {
    var s := texts[0] + (Numeral(n) + later);
    FieldFirst(texts[0], Numeral(n), later);
    LeadingNumeral(n, later);
    assert s[|texts[0]|..][|Numeral(n)|..] == later;
  }

  /** What was filled in is read. */
  lemma {:induction false} FilledIsRead(texts: seq<string>, numbers: seq<nat>, rest: string)
    requires |texts| == |numbers| + 1 && Separates(texts)
    ensures ReadFields(Fill(texts, numbers) + rest, texts) == Some((numbers, rest))
    decreases |numbers|
  {
    if numbers == [] {
      assert (texts[0] + rest)[|texts[0]|..] == rest;
    } else {
      var tail := Fill(texts[1..], numbers[1..]);
      SeparatesTail(texts);
      FilledIsRead(texts[1..], numbers[1..], rest);
      FillStart(texts[1..], numbers[1..]);
      OneField(texts, numbers[0], tail + rest, numbers[1..], rest);
      AssociateFill(texts[0], Numeral(numbers[0]), tail, rest);
      assert numbers == [numbers[0]] + numbers[1..];
    }
  }

  lemma SeparatesTail(texts: seq<string>)
    requires |texts| > 1 && Separates(texts)
    ensures Separates(texts[1..]) && texts[1..][0] != "" && !IsDigit(texts[1..][0][0])
  {
    forall i | 1 <= i < |texts[1..]| ensures texts[1..][i] == texts[i + 1] {}
  }

  // ---------------------------------------------------------------------------------------
  // The parts of a file

  const TABLE := ["xref\n0 ", "\n"]
  const ENTRY := ["", " 00000 n \n"]
  const TRAILER := ["trailer\n<< /Size ", " /Root ", " 0 R >>\nstartxref\n", "\n%%EOF\n"]
  const OBJECT := ["", " 0 obj\n"]
  const CATALOGUE := ["<< /Type /Catalog /Pages ", " 0 R >>\nendobj\n"]
  const TREE := ["<< /Type /Pages /Kids ["]
  const COUNT := ["] /Count ", " >>\nendobj\n"]
  const PARENT := ["<< /Type /Page /Parent ", " 0 R "]
  const BOX := ["/MediaBox [", " ", " ", " ", "] "]
  const FONTS := ["/Resources << /Font << /F1 ", " 0 R /F2 ", " 0 R >> >> "]
  const CONTENTS := ["/Contents ", " 0 R >>\nendobj\n"]
  const LENGTH := ["<< /Length ", " >>\nstream\n"]
  const FONT_NAME := ["<< /Type /Font /Subtype /Type1 /BaseFont "]

  datatype Font = Helvetica | HelveticaBold

  datatype Page = Page(parent: nat, box: seq<nat>, regular: Option<Font>, bold: Option<Font>, content: Option<string>)

  datatype Tree = Tree(id: nat, count: nat, pages: seq<Option<Page>>)

  /** The first layer of a file: what the table and the trailer say, and the text of every object that the
      entries of the table lead to, under its own number. */
  datatype Body = Body(entries: nat, size: nat, root: nat, tableAt: nat, objects: seq<Option<string>>)

  function ReadObject(file: string, entries: string, id: nat): Option<string> {
    match ReadFields(From(entries, 20 * id), ENTRY)
    case None => None
    case Some(entry) =>
      match ReadFields(From(file, entry.0[0]), OBJECT)
      case None => None
      case Some(found) => if found.0[0] == id then Some(found.1) else None
  }

  function ReadObjects(file: string, entries: string, n: nat): (objects: seq<Option<string>>)
    ensures |objects| == n && forall id :: 0 <= id < n ==> objects[id] == ReadObject(file, entries, id)
  {
    seq(n, id requires 0 <= id < n => ReadObject(file, entries, id))
  }

  function ReadBody(file: string): Option<Body> {
    if !StartsWith(file, "%PDF-1.4\n") then None
    else match ReadFields(From(file, StartXref(file)), TABLE)
      case None => None
      case Some(table) => ReadFrom(file, table.0[0], table.1)
  }

  function ReadFrom(file: string, n: nat, entries: string): Option<Body> {
    if !StartsWith(entries, "0000000000 65535 f \n") then None
    else match ReadFields(From(entries, 20 * n), TRAILER)
      case None => None
      case Some(trailer) =>
        Some(Body(n, trailer.0[0], trailer.0[1], trailer.0[2], ReadObjects(file, entries, n)))
  }

  function ReadObjectFields(objects: seq<Option<string>>, id: nat, texts: seq<string>): (r: Option<(seq<nat>, string)>)
    requires texts != []
    ensures r.Some? ==> |r.value.0| == |texts| - 1
  {
    if id < |objects| && objects[id].Some? then ReadFields(objects[id].value, texts) else None
  }

  function ReadFont(objects: seq<Option<string>>, id: nat): Option<Font> {
    match ReadObjectFields(objects, id, FONT_NAME)
    case None => None
    case Some(found) =>
      if StartsWith(found.1, "/Helvetica >>\nendobj\n") then Some(Helvetica)
      else if StartsWith(found.1, "/Helvetica-Bold >>\nendobj\n") then Some(HelveticaBold)
      else None
  }

  /** A stream: its length, that many bytes, and the closing keyword. */
  function ReadStream(objects: seq<Option<string>>, id: nat): Option<string> {
    match ReadObjectFields(objects, id, LENGTH)
    case None => None
    case Some(found) =>
      var n, data := found.0[0], found.1;
      if n <= |data| && StartsWith(data[n..], "\nendstream\nendobj\n") then Some(data[..n]) else None
  }

  /** The four entries of a page in turn: its parent, its size, its fonts and its contents. */
  function ReadPageEntries(text: string): (r: Option<(nat, seq<nat>, seq<nat>, nat)>)
    ensures r.Some? ==> |r.value.2| == 2
  {
    match ReadFields(text, PARENT)
    case None => None
    case Some(parent) =>
      match ReadFields(parent.1, BOX)
      case None => None
      case Some(box) =>
        match ReadFields(box.1, FONTS)
        case None => None
        case Some(fonts) =>
          match ReadFields(fonts.1, CONTENTS)
          case None => None
          case Some(contents) => Some((parent.0[0], box.0, fonts.0, contents.0[0]))
  }

  function ReadPage(objects: seq<Option<string>>, id: nat): Option<Page> {
    if id < |objects| && objects[id].Some? then
      match ReadPageEntries(objects[id].value)
      case None => None
      case Some(page) =>
        Some(Page(page.0, page.1, ReadFont(objects, page.2[0]), ReadFont(objects, page.2[1]), ReadStream(objects, page.3)))
    else None
  }

  /** A list of references "n 0 R n 0 R ...", and what follows it. */
  function ReadRefs(s: string): (seq<nat>, string)
    decreases |s|
  {
    var n := DigitRun(s);
    if n == 0 then ([], s)
    else if n + 5 <= |s| && s[n..n + 5] == " 0 R " then
      var later := ReadRefs(s[n + 5..]);
      ([LeadingNumber(s)] + later.0, later.1)
    else if n + 4 <= |s| && s[n..n + 4] == " 0 R" then ([LeadingNumber(s)], s[n + 4..])
    else ([], s)
  }

  function ReadPages(objects: seq<Option<string>>, ids: seq<nat>): (pages: seq<Option<Page>>)
    ensures |pages| == |ids| && forall i :: 0 <= i < |ids| ==> pages[i] == ReadPage(objects, ids[i])
  {
    seq(|ids|, i requires 0 <= i < |ids| => ReadPage(objects, ids[i]))
  }

  /** The page tree, its count and its pages in order, found from the root. */
  function ReadTree(objects: seq<Option<string>>, root: nat): Option<Tree> {
    match ReadObjectFields(objects, root, CATALOGUE)
    case None => None
    case Some(catalogue) =>
      match ReadObjectFields(objects, catalogue.0[0], TREE)
      case None => None
      case Some(found) =>
        var refs := ReadRefs(found.1);
        match ReadFields(refs.1, COUNT)
        case None => None
        case Some(count) => Some(Tree(catalogue.0[0], count.0[0], ReadPages(objects, refs.0)))
  }

  // ---------------------------------------------------------------------------------------
  // What was written is read: the table and the trailer

  lemma ShortTextsSeparate()
    ensures Separates(TABLE) && Separates(ENTRY) && Separates(OBJECT) && Separates(CATALOGUE)
    ensures Separates(TREE) && Separates(COUNT) && Separates(LENGTH)
  {}

  lemma TrailerSeparates()
    ensures Separates(TRAILER)
  {
    assert TRAILER[1][0] == '/' || TRAILER[1][0] == ' ';
  }

  lemma PageSeparates()
    ensures Separates(PARENT) && Separates(BOX) && Separates(FONTS) && Separates(CONTENTS)
  {}

  lemma FillTwo(a: string, b: string, n: nat)
    ensures Fill([a, b], [n]) == a + (Numeral(n) + b)
  {
    assert [a, b][1..] == [b] && [n][1..] == [];
  }

  lemma TableIsRead(objects: seq<string>)
    ensures ReadFields(From(File(objects), StartXref(File(objects))), TABLE) == Some(([|objects| + 1], EntryTable(objects)))
  {
    StartXrefIsRight(objects);
    TableForm(objects);
    ShortTextsSeparate();
    FillTwo("xref\n0 ", "\n", |objects| + 1);
    AssociateFill("xref\n0 ", Numeral(|objects| + 1), "\n", EntryTable(objects));
    FilledIsRead(TABLE, [|objects| + 1], EntryTable(objects));
  }

  lemma AssociateFill(a: string, b: string, c: string, d: string)
    ensures (a + (b + c)) + d == a + (b + (c + d))
  {}

  lemma FreeEntryIsFirst(objects: seq<string>)
    ensures StartsWith(EntryTable(objects), "0000000000 65535 f \n")
  {
    var more := Entries(objects, |objects|) + Trailer(objects);
    assert EntryTable(objects) == FREE_ENTRY + more;
    assert (FREE_ENTRY + more)[..|FREE_ENTRY|] == FREE_ENTRY;
  }

  lemma TextIsRead(text: string, rest: string)
    ensures ReadFields(text + rest, [text]) == Some(([], rest))
  {
    assert (text + rest)[|text|..] == rest;
  }

  lemma PaddedRun(n: nat, later: string)
    requires n < 10_000_000_000 && later != "" && !IsDigit(later[0])
    ensures DigitRun(Padded(n) + later) == 10 && LeadingNumber(Padded(n) + later) == n && (Padded(n) + later)[10..] == later
  {
    var s := Padded(n) + later;
    PaddedLength(n);
    ValueOfPadded(n);
    assert forall i :: 0 <= i < 10 ==> s[i] == Padded(n)[i];
    assert s[10] == later[0];
    assert DigitRun(s) == 10 && s[..10] == Padded(n);
  }

  /** A number padded with zeros, as the entries hold it. */
  lemma PaddedIsRead(n: nat, rest: string)
    requires n < 10_000_000_000
    ensures ReadFields(Padded(n) + (" 00000 n \n" + rest), ENTRY) == Some(([n], rest))
  {
    var later := " 00000 n \n" + rest;
    var s := Padded(n) + later;
    assert later[0] == ' ';
    PaddedRun(n, later);
    assert ENTRY[1..] == [" 00000 n \n"] && ENTRY[0] == "" && s[0..] == s;
    TextIsRead(" 00000 n \n", rest);
    assert ReadFields(s[10..], ENTRY[1..]) == Some(([], rest));
    assert [n] + [] == [n];
  }

  lemma EntryAt(free: string, all: string, trailer: string, id: nat)
    requires |free| == 20 && 1 <= id && 20 * id <= |all|
    ensures From(free + all + trailer, 20 * id) == all[20 * (id - 1)..20 * id] + (all[20 * id..] + trailer)
  {}

  lemma AfterEntries(free: string, all: string, trailer: string, n: nat)
    requires |free| + |all| == n
    ensures From(free + all + trailer, n) == trailer
  {}

  lemma FreeLength()
    ensures |FREE_ENTRY| == 20
  {}

  lemma AssociateEntry(number: string, text: string, after: string)
    ensures (number + text) + after == number + (text + after)
  {}

  /** Entry `id` records the offset of object `id`. */
  lemma EntryIsFound(objects: seq<string>, id: nat)
    requires 1 <= id <= |objects| && Offset(objects, |objects|) < 10_000_000_000
    ensures ReadFields(From(EntryTable(objects), 20 * id), ENTRY).Some?
    ensures ReadFields(From(EntryTable(objects), 20 * id), ENTRY).value.0 == [Offset(objects, id)]
  {
    EntryStands(objects, id);
    FreeLength();
    var all, offset := Entries(objects, |objects|), Offset(objects, id);
    EntryAt(FREE_ENTRY, all, Trailer(objects), id);
    var after := all[20 * id..] + Trailer(objects);
    AssociateEntry(Padded(offset), " 00000 n \n", after);
    PaddedIsRead(offset, after);
  }

  lemma EntriesLength(objects: seq<string>)
    requires objects != [] && Offset(objects, |objects|) < 10_000_000_000
    ensures |Entries(objects, |objects|)| == 20 * |objects|
  {
    forall id | 1 <= id <= |objects| ensures Offset(objects, id) < 10_000_000_000 {
      OffsetsAreOrdered(objects, id, |objects|);
    }
    EntriesAreTwentyBytes(objects, |objects|, |objects|);
  }

  lemma TrailerIsFound(objects: seq<string>)
    requires objects != [] && Offset(objects, |objects|) < 10_000_000_000
    ensures From(EntryTable(objects), 20 * (|objects| + 1)) == Trailer(objects)
  {
    EntriesLength(objects);
    FreeLength();
    AfterEntries(FREE_ENTRY, Entries(objects, |objects|), Trailer(objects), 20 * (|objects| + 1));
  }

  lemma FillFour(a: string, b: string, c: string, d: string, i: nat, j: nat, k: nat)
    ensures Fill([a, b, c, d], [i, j, k]) == a + (Numeral(i) + (b + (Numeral(j) + (c + (Numeral(k) + d)))))
  {
    assert [a, b, c, d][1..] == [b, c, d] && [b, c, d][1..] == [c, d] && [c, d][1..] == [d];
    assert [i, j, k][1..] == [j, k] && [j, k][1..] == [k] && [k][1..] == [];
    assert Fill([c, d], [k]) == c + (Numeral(k) + d);
    assert Fill([b, c, d], [j, k]) == b + (Numeral(j) + Fill([c, d], [k]));
  }

  lemma RootText()
    ensures " /Root 1 0 R >>\nstartxref\n" == " /Root " + (Numeral(1) + " 0 R >>\nstartxref\n")
  {
    assert Numeral(1) == "1";
  }

  lemma AssociateTrailer(a: string, m: string, b: string, one: string, c: string, n: string, d: string)
    ensures a + m + (b + (one + c)) + n + d == a + (m + (b + (one + (c + (n + d)))))
  {}

  lemma TrailerIsRead(objects: seq<string>)
    ensures ReadFields(Trailer(objects), TRAILER) == Some(([|objects| + 1, 1, XrefAt(objects)], ""))
  {
    var a, b, c, d := "trailer\n<< /Size ", " /Root ", " 0 R >>\nstartxref\n", "\n%%EOF\n";
    RootText();
    AssociateTrailer(a, Numeral(|objects| + 1), b, Numeral(1), c, Numeral(XrefAt(objects)), d);
    FillFour(a, b, c, d, |objects| + 1, 1, XrefAt(objects));
    FilledTrailer(Trailer(objects), [|objects| + 1, 1, XrefAt(objects)]);
  }

  lemma {:induction false} FilledTrailer(text: string, numbers: seq<nat>)
    requires |numbers| == 3 && text == Fill(TRAILER, numbers)
    ensures ReadFields(text, TRAILER) == Some((numbers, ""))
  {
    TrailerSeparates();
    FilledIsRead(TRAILER, numbers, "");
    assert text + "" == text;
  }

  // ---------------------------------------------------------------------------------------
  // What was written is read: the objects

  /** Every offset fits into the ten digits of an entry. */
  predicate Sized(objects: seq<string>) { objects != [] && Offset(objects, |objects|) < 10_000_000_000 }

  lemma FrameInParts(number: string, body: string, more: string)
    ensures (number + " 0 obj\n") + body + "\nendobj\n" + more == "" + (number + (" 0 obj\n" + (body + ("\nendobj\n" + more))))
  {}

  lemma OpeningIsRead(id: nat, rest: string)
    ensures ReadFields("" + (Numeral(id) + (" 0 obj\n" + rest)), OBJECT) == Some(([id], rest))
  {
    FillTwo("", " 0 obj\n", id);
    ShortTextsSeparate();
    AssociateFill("", Numeral(id), " 0 obj\n", rest);
    FilledIsRead(OBJECT, [id], rest);
  }

  lemma FrameIsRead(file: string, at: nat, id: nat, body: string) returns (more: string)
    requires Stands(file, at, Frame(id, body))
    ensures ReadFields(From(file, at), OBJECT) == Some(([id], body + ("\nendobj\n" + more)))
  {
    more := file[at + |Frame(id, body)|..];
    assert From(file, at) == Frame(id, body) + more;
    FrameInParts(Numeral(id), body, more);
    OpeningIsRead(id, body + ("\nendobj\n" + more));
  }

  lemma FoundThroughEntry(file: string, entries: string, id: nat, at: nat, text: string)
    requires ReadFields(From(entries, 20 * id), ENTRY).Some? && ReadFields(From(entries, 20 * id), ENTRY).value.0 == [at]
    requires ReadFields(From(file, at), OBJECT) == Some(([id], text))
    ensures ReadObject(file, entries, id) == Some(text)
  {}

  /** Every object is found through the table, under its own number. */
  lemma ObjectIsFound(objects: seq<string>, id: nat)
    requires Sized(objects) && 1 <= id <= |objects|
    ensures var read := ReadObject(File(objects), EntryTable(objects), id);
            read.Some? && StartsWith(read.value, objects[id - 1] + "\nendobj\n")
  {
    EntryIsFound(objects, id);
    ObjectAtOffset(objects, id);
    var more := FrameIsRead(File(objects), Offset(objects, id), id, objects[id - 1]);
    FoundThroughEntry(File(objects), EntryTable(objects), id, Offset(objects, id), objects[id - 1] + ("\nendobj\n" + more));
    ClosedBody(objects[id - 1], "\nendobj\n", more);
  }

  lemma ClosedBody(body: string, closing: string, more: string)
    ensures StartsWith(body + (closing + more), body + closing)
  {
    assert body + (closing + more) == (body + closing) + more;
  }

  /** The texts that were read are those of the objects that were written. */
  ghost predicate Loaded(read: seq<Option<string>>, objects: seq<string>) {
    && |read| == |objects| + 1
    && forall id :: 1 <= id <= |objects| ==> read[id].Some? && StartsWith(read[id].value, objects[id - 1] + "\nendobj\n")
  }

  lemma ObjectsAreLoaded(objects: seq<string>)
    requires Sized(objects)
    ensures Loaded(ReadObjects(File(objects), EntryTable(objects), |objects| + 1), objects)
  {
    var read := ReadObjects(File(objects), EntryTable(objects), |objects| + 1);
    forall id | 1 <= id <= |objects|
      ensures read[id].Some? && StartsWith(read[id].value, objects[id - 1] + "\nendobj\n")
    {
      ObjectIsFound(objects, id);
    }
  }

  lemma BodyFrom(file: string, n: nat, entries: string, size: nat, root: nat, tableAt: nat)
    requires StartsWith(entries, "0000000000 65535 f \n")
    requires ReadFields(From(entries, 20 * n), TRAILER) == Some(([size, root, tableAt], ""))
    ensures ReadFrom(file, n, entries) == Some(Body(n, size, root, tableAt, ReadObjects(file, entries, n)))
  {}

  lemma HeaderIsFirst(objects: seq<string>)
    ensures StartsWith(File(objects), "%PDF-1.4\n")
  {
    var more := Frames(objects, |objects|) + XrefTable(objects) + Trailer(objects);
    assert File(objects) == HEADER + more;
    StartsWithFirst(HEADER, more);
  }

  /** What the first layer of a file of these objects is. */
  function BodyOf(objects: seq<string>): Body {
    Body(|objects| + 1, |objects| + 1, 1, XrefAt(objects), ReadObjects(File(objects), EntryTable(objects), |objects| + 1))
  }

  lemma TrailerAndObjectsAreRead(objects: seq<string>)
    requires Sized(objects)
    ensures ReadFrom(File(objects), |objects| + 1, EntryTable(objects)) == Some(BodyOf(objects))
  {
    FreeEntryIsFirst(objects);
    TrailerIsFound(objects);
    TrailerIsRead(objects);
    BodyFrom(File(objects), |objects| + 1, EntryTable(objects), |objects| + 1, 1, XrefAt(objects));
  }

  lemma FileFrom(file: string, n: nat, entries: string, body: Body)
    requires StartsWith(file, "%PDF-1.4\n")
    requires ReadFields(From(file, StartXref(file)), TABLE) == Some(([n], entries))
    requires ReadFrom(file, n, entries) == Some(body)
    ensures ReadBody(file) == Some(body)
  {}

  lemma {:induction false} FileIsRead(objects: seq<string>, body: Body)
    requires ReadFrom(File(objects), |objects| + 1, EntryTable(objects)) == Some(body)
    ensures ReadBody(File(objects)) == Some(body)
  {
    HeaderIsFirst(objects);
    TableIsRead(objects);
    FileFrom(File(objects), |objects| + 1, EntryTable(objects), body);
  }

  /** The first layer: the table and the trailer count one more than the objects, the trailer says where
      the table stands and that object 1 is the root, and every object is loaded. */
  lemma {:induction false} BodyIsRead(objects: seq<string>)
    requires Sized(objects)
    ensures var body := ReadBody(File(objects));
            && body.Some? && body.value.entries == body.value.size == |objects| + 1 && body.value.root == 1
            && body.value.tableAt == StartXref(File(objects)) && Loaded(body.value.objects, objects)
  {
    TrailerAndObjectsAreRead(objects);
    FileIsRead(objects, BodyOf(objects));
    ObjectsAreLoaded(objects);
    StartXrefIsRight(objects);
  }

  // ---------------------------------------------------------------------------------------
  // What was written is read: single objects

  lemma ObjectIsLoaded(read: seq<Option<string>>, objects: seq<string>, id: nat) returns (more: string)
    requires Loaded(read, objects) && 1 <= id <= |objects|
    ensures read[id] == Some(objects[id - 1] + ("\nendobj\n" + more))
  {
    var text, front := read[id].value, objects[id - 1] + "\nendobj\n";
    more := text[|front|..];
    assert text == front + more;
    AssociateTwo(objects[id - 1], "\nendobj\n", more);
  }

  lemma AssociateTwo(a: string, b: string, c: string)
    ensures (a + b) + c == a + (b + c)
  {}

  lemma AssociateFields(body: string, closing: string, more: string, filled: string, after: string)
    requires body + closing == filled + after
    ensures body + (closing + more) == filled + (after + more)
  {
    assert body + (closing + more) == (body + closing) + more;
    assert filled + (after + more) == (filled + after) + more;
  }

  lemma ObjectFieldsAreRead(read: seq<Option<string>>, objects: seq<string>, id: nat, texts: seq<string>, numbers: seq<nat>, after: string)
    returns (more: string)
    requires Loaded(read, objects) && 1 <= id <= |objects| && |texts| == |numbers| + 1 && Separates(texts)
    requires objects[id - 1] + "\nendobj\n" == Fill(texts, numbers) + after
    ensures ReadObjectFields(read, id, texts) == Some((numbers, after + more))
  {
    more := ObjectIsLoaded(read, objects, id);
    AssociateFields(objects[id - 1], "\nendobj\n", more, Fill(texts, numbers), after);
    FilledIsRead(texts, numbers, after + more);
  }

  lemma CatalogueText()
    ensures CATALOG + "\nendobj\n" == Fill(CATALOGUE, [2]) + ""
  {
    FillTwo("<< /Type /Catalog /Pages ", " 0 R >>\nendobj\n", 2);
    assert Numeral(2) == "2";
  }

  lemma StartsWithFirst(a: string, b: string)
    ensures StartsWith(a + b, a)
  {}

  lemma PrefixChar(s: string, t: string, i: nat)
    requires i < |t|
    ensures StartsWith(s, t) ==> i < |s| && s[i] == t[i]
  {
    if StartsWith(s, t) {
      assert s[..|t|][i] == s[i];
    }
  }

  lemma BoldIsNotRegular(text: string, bold: string, regular: string)
    requires bold == "/Helvetica-Bold >>\nendobj\n" && regular == "/Helvetica >>\nendobj\n"
    requires StartsWith(text, bold)
    ensures !StartsWith(text, regular)
  {
    assert bold[10] == '-' && regular[10] == ' ';
    PrefixChar(text, bold, 10);
    PrefixChar(text, regular, 10);
  }

  lemma FontText(start: string, name: string, closing: string)
    ensures (start + name) + closing == Fill([start], []) + (name + closing)
  {}

  lemma FontNameIsRead(read: seq<Option<string>>, objects: seq<string>, id: nat, name: string) returns (more: string)
    requires Loaded(read, objects) && 1 <= id <= |objects| && objects[id - 1] == FONT_NAME[0] + name
    ensures ReadObjectFields(read, id, FONT_NAME) == Some(([], name + "\nendobj\n" + more))
  {
    FontText(FONT_NAME[0], name, "\nendobj\n");
    more := ObjectFieldsAreRead(read, objects, id, FONT_NAME, [], name + "\nendobj\n");
  }

  lemma ReadsRegular(read: seq<Option<string>>, id: nat, closed: string, more: string)
    requires closed == "/Helvetica >>\nendobj\n"
    requires ReadObjectFields(read, id, FONT_NAME) == Some(([], closed + more))
    ensures ReadFont(read, id) == Some(Helvetica)
  {
    StartsWithFirst(closed, more);
  }

  lemma ReadsBold(read: seq<Option<string>>, id: nat, closed: string, more: string)
    requires closed == "/Helvetica-Bold >>\nendobj\n"
    requires ReadObjectFields(read, id, FONT_NAME) == Some(([], closed + more))
    ensures ReadFont(read, id) == Some(HelveticaBold)
  {
    StartsWithFirst(closed, more);
    BoldIsNotRegular(closed + more, closed, "/Helvetica >>\nendobj\n");
  }

  lemma FontBodies()
    ensures FONT == FONT_NAME[0] + "/Helvetica >>" && BOLD_FONT == FONT_NAME[0] + "/Helvetica-Bold >>"
    ensures "/Helvetica >>" + "\nendobj\n" == "/Helvetica >>\nendobj\n"
    ensures "/Helvetica-Bold >>" + "\nendobj\n" == "/Helvetica-Bold >>\nendobj\n"
  {}

  lemma FontsAreRead(read: seq<Option<string>>, objects: seq<string>)
    requires Loaded(read, objects) && |objects| >= 4 && objects[2] == FONT && objects[3] == BOLD_FONT
    ensures ReadFont(read, 3) == Some(Helvetica)
    ensures ReadFont(read, 4) == Some(HelveticaBold)
  {
    FontBodies();
    var regular := FontNameIsRead(read, objects, 3, "/Helvetica >>");
    ReadsRegular(read, 3, "/Helvetica >>" + "\nendobj\n", regular);
    var bold := FontNameIsRead(read, objects, 4, "/Helvetica-Bold >>");
    ReadsBold(read, 4, "/Helvetica-Bold >>" + "\nendobj\n", bold);
  }

  lemma StreamText(stream: string)
    ensures StreamBody(stream) + "\nendobj\n" == Fill(LENGTH, [|stream|]) + (stream + "\nendstream\nendobj\n")
  {
    FillTwo("<< /Length ", " >>\nstream\n", |stream|);
    AssociateStream("<< /Length ", Numeral(|stream|), " >>\nstream\n", stream, "\nendstream", "\nendobj\n");
    assert "\nendstream" + "\nendobj\n" == "\nendstream\nendobj\n";
  }

  lemma AssociateStream(a: string, n: string, b: string, stream: string, c: string, d: string)
    ensures (a + n + b + stream + c) + d == (a + (n + b)) + (stream + (c + d))
  {}

  lemma DataIsCut(stream: string, closing: string, more: string)
    ensures var data := (stream + closing) + more; data[..|stream|] == stream && StartsWith(data[|stream|..], closing)
  {
    assert ((stream + closing) + more)[|stream|..] == closing + more;
  }

  /** The recorded length gives the stream back, and the keyword stands where it ends. */
  lemma StreamIsRead(read: seq<Option<string>>, objects: seq<string>, id: nat, stream: string)
    requires Loaded(read, objects) && 1 <= id <= |objects| && objects[id - 1] == StreamBody(stream)
    ensures ReadStream(read, id) == Some(stream)
  {
    StreamText(stream);
    ShortTextsSeparate();
    var more := ObjectFieldsAreRead(read, objects, id, LENGTH, [|stream|], stream + "\nendstream\nendobj\n");
    DataIsCut(stream, "\nendstream\nendobj\n", more);
  }

  lemma PartIsRead(text: string, texts: seq<string>, numbers: seq<nat>, later: string)
    requires |texts| == |numbers| + 1 && Separates(texts) && text == Fill(texts, numbers)
    ensures ReadFields(text + later, texts) == Some((numbers, later))
  {
    FilledIsRead(texts, numbers, later);
  }

  lemma ParentText()
    ensures "<< /Type /Page /Parent 2 0 R " == Fill(PARENT, [2])
  {
    FillTwo("<< /Type /Page /Parent ", " 0 R ", 2);
    assert Numeral(2) == "2";
  }

  lemma SizeNumerals()
    ensures Numeral(0) == "0" && Numeral(612) == "612" && Numeral(792) == "792"
  {
    assert Numeral(61) == Numeral(6) + ['1'] == "61";
    assert Numeral(612) == Numeral(61) + ['2'];
    assert Numeral(79) == Numeral(7) + ['9'] == "79";
    assert Numeral(792) == Numeral(79) + ['2'];
  }

  lemma BoxText()
    ensures "/MediaBox [0 0 612 792] " == Fill(BOX, [0, 0, 612, 792])
  {
    SizeNumerals();
    FillFour(" ", " ", " ", "] ", 0, 612, 792);
    assert BOX[1..] == [" ", " ", " ", "] "] && [0, 0, 612, 792][1..] == [0, 612, 792];
    assert Fill(BOX, [0, 0, 612, 792]) == "/MediaBox [" + ("0" + (" " + ("0" + (" " + ("612" + (" " + ("792" + "] ")))))));
  }

  lemma FillThree(a: string, b: string, c: string, i: nat, j: nat)
    ensures Fill([a, b, c], [i, j]) == a + (Numeral(i) + (b + (Numeral(j) + c)))
  {
    FillTwo(b, c, j);
    assert [a, b, c][1..] == [b, c] && [i, j][1..] == [j];
  }

  lemma FontsText()
    ensures "/Resources << /Font << /F1 3 0 R /F2 4 0 R >> >> " == Fill(FONTS, [3, 4])
  {
    FillThree("/Resources << /Font << /F1 ", " 0 R /F2 ", " 0 R >> >> ", 3, 4);
    assert Numeral(3) == "3" && Numeral(4) == "4";
  }

  lemma AssociatePage(a: string, b: string, c: string, d: string, n: string, e: string, f: string, more: string)
    ensures (a + b + c + d + n + e) + (f + more) == a + (b + (c + ((d + (n + (e + f))) + more)))
  {}

  /** A page names the page tree, its size, both fonts and its own stream. */
  lemma {:induction false} PageEntriesAreRead(streamId: nat, more: string)
    ensures ReadPageEntries(PageBody(streamId) + ("\nendobj\n" + more)) == Some((2, [0, 0, 612, 792], [3, 4], streamId))
  {
    var parent, box := "<< /Type /Page /Parent 2 0 R ", "/MediaBox [0 0 612 792] ";
    var fonts := "/Resources << /Font << /F1 3 0 R /F2 4 0 R >> >> ";
    AssociatePage(parent, box, fonts, "/Contents ", Numeral(streamId), " 0 R >>", "\nendobj\n", more);
    assert " 0 R >>" + "\nendobj\n" == " 0 R >>\nendobj\n";
    FillTwo("/Contents ", " 0 R >>\nendobj\n", streamId);
    var contents := Fill(CONTENTS, [streamId]);
    PageSeparates();
    ParentText();
    PartIsRead(parent, PARENT, [2], box + (fonts + (contents + more)));
    BoxText();
    PartIsRead(box, BOX, [0, 0, 612, 792], fonts + (contents + more));
    FontsText();
    PartIsRead(fonts, FONTS, [3, 4], contents + more);
    PartIsRead(contents, CONTENTS, [streamId], more);
  }

  // ---------------------------------------------------------------------------------------
  // The page tree

  /** The kids from the `i`-th on, first to last. */
  function KidsFrom(i: nat, n: nat): string
    decreases n - i
  {
    if i >= n then ""
    else if i == n - 1 then Numeral(5 + i * 2) + " 0 R"
    else Numeral(5 + i * 2) + (" 0 R " + KidsFrom(i + 1, n))
  }

  lemma FirstKid(a: string, b: string)
    ensures a + (" 0 R " + b) == (a + " 0 R") + (" " + b)
  {}

  lemma KidsFromFirst(i: nat, n: nat)
    requires i < n - 1
    ensures KidsFrom(i, n) == Numeral(5 + i * 2) + (" 0 R " + KidsFrom(i + 1, n))
  {}

  lemma LaterKid(a: string, rest: string, b: string)
    ensures a + (" 0 R " + (rest + b)) == (a + (" 0 R " + rest)) + b
  {}

  lemma KidsFromSnocStep(i: nat, n: nat, last: string)
    requires i < n - 1 && KidsFrom(i + 1, n + 1) == KidsFrom(i + 1, n) + (" " + last)
    ensures KidsFrom(i, n + 1) == KidsFrom(i, n) + (" " + last)
  {
    KidsFromFirst(i, n);
    KidsFromFirst(i, n + 1);
    LaterKid(Numeral(5 + i * 2), KidsFrom(i + 1, n), " " + last);
  }

  lemma KidsFromSnocLast(i: nat)
    ensures KidsFrom(i, i + 2) == KidsFrom(i, i + 1) + (" " + KidsFrom(i + 1, i + 2))
  {
    KidsFromFirst(i, i + 2);
    FirstKid(Numeral(5 + i * 2), KidsFrom(i + 1, i + 2));
  }

  lemma {:induction false} KidsFromSnoc(i: nat, n: nat)
    requires i < n
    ensures KidsFrom(i, n + 1) == KidsFrom(i, n) + (" " + KidsFrom(n, n + 1))
    decreases n - i
  {
    if i < n - 1 {
      KidsFromSnoc(i + 1, n);
      KidsFromSnocStep(i, n, KidsFrom(n, n + 1));
    } else {
      KidsFromSnocLast(i);
    }
  }

  lemma AssociateKid(a: string, b: string, c: string)
    ensures a + " " + b + c == a + (" " + (b + c))
  {}

  lemma {:induction false} KidsAreListed(n: nat)
    ensures Kids(n) == KidsFrom(0, n)
  {
    if n > 1 {
      KidsAreListed(n - 1);
      KidsFromSnoc(0, n - 1);
      AssociateKid(Kids(n - 1), Numeral(5 + (n - 1) * 2), " 0 R");
    }
  }

  function PageId(i: nat): nat { 5 + i * 2 }

  function PageIds(i: nat, n: nat): (ids: seq<nat>)
    ensures |ids| == if i <= n then n - i else 0
    ensures forall k :: 0 <= k < |ids| ==> ids[k] == PageId(i + k)
    decreases n - i
  {
    if i >= n then [] else [PageId(i)] + PageIds(i + 1, n)
  }

  lemma RefsStep(n: nat, later: string)
    ensures ReadRefs(Numeral(n) + (" 0 R " + later)) == ([n] + ReadRefs(later).0, ReadRefs(later).1)
  {
    var s := Numeral(n) + (" 0 R " + later);
    LeadingNumeral(n, " 0 R " + later);
    assert s[|Numeral(n)|..|Numeral(n)| + 5] == (" 0 R " + later)[..5] == " 0 R ";
    assert s[|Numeral(n)| + 5..] == later;
  }

  lemma RefsEnd(n: nat, rest: string)
    requires rest != "" && rest[0] == ']'
    ensures ReadRefs(Numeral(n) + (" 0 R" + rest)) == ([n], rest)
  {
    var s := Numeral(n) + (" 0 R" + rest);
    LeadingNumeral(n, " 0 R" + rest);
    assert s[|Numeral(n)| + 4] == ']';
    assert s[|Numeral(n)|..|Numeral(n)| + 5][4] == ']';
    assert s[|Numeral(n)|..|Numeral(n)| + 4] == " 0 R";
    assert s[|Numeral(n)| + 4..] == rest;
  }

  lemma AssociateThree(a: string, b: string, c: string, d: string)
    ensures a + (b + c) + d == a + (b + (c + d))
  {}

  lemma OneMoreRef(i: nat, n: nat, rest: string)
    requires i < n - 1 && ReadRefs(KidsFrom(i + 1, n) + rest) == (PageIds(i + 1, n), rest)
    ensures ReadRefs(KidsFrom(i, n) + rest) == (PageIds(i, n), rest)
  {
    KidsFromFirst(i, n);
    AssociateThree(Numeral(5 + i * 2), " 0 R ", KidsFrom(i + 1, n), rest);
    RefsStep(5 + i * 2, KidsFrom(i + 1, n) + rest);
  }

  lemma LastRef(i: nat, n: nat, rest: string)
    requires i == n - 1 && rest != "" && rest[0] == ']'
    ensures ReadRefs(KidsFrom(i, n) + rest) == (PageIds(i, n), rest)
  {
    var last := Numeral(5 + i * 2);
    assert KidsFrom(i, n) == last + " 0 R";
    AssociateTwo(last, " 0 R", rest);
    RefsEnd(5 + i * 2, rest);
    assert PageIds(i, n) == [5 + i * 2];
  }

  lemma NoRefs(i: nat, n: nat, rest: string)
    requires i >= n && rest != "" && rest[0] == ']'
    ensures ReadRefs(KidsFrom(i, n) + rest) == (PageIds(i, n), rest)
  {
    assert KidsFrom(i, n) + rest == rest;
    assert PageIds(i, n) == [] && DigitRun(rest) == 0;
  }

  /** The list of kids is read to its end. */
  lemma {:induction false} RefsAreRead(i: nat, n: nat, rest: string)
    requires rest != "" && rest[0] == ']'
    ensures ReadRefs(KidsFrom(i, n) + rest) == (PageIds(i, n), rest)
    decreases n - i
  {
    if i >= n {
      NoRefs(i, n, rest);
    } else if i == n - 1 {
      LastRef(i, n, rest);
    } else {
      RefsAreRead(i + 1, n, rest);
      OneMoreRef(i, n, rest);
    }
  }

  lemma AssociateTree(a: string, kids: string, b: string, n: string, c: string, d: string)
    ensures (a + kids + b + n + c) + d == a + (kids + (b + (n + (c + d))))
  {}

  lemma TreeText(n: nat)
    ensures PagesBody(n) + "\nendobj\n" == Fill(TREE, []) + (KidsFrom(0, n) + Fill(COUNT, [n]))
  {
    KidsAreListed(n);
    FillTwo("] /Count ", " >>\nendobj\n", n);
    assert " >>" + "\nendobj\n" == " >>\nendobj\n";
    AssociateTree("<< /Type /Pages /Kids [", Kids(n), "] /Count ", Numeral(n), " >>", "\nendobj\n");
  }

  lemma CountIsRead(n: nat, more: string)
    ensures Fill(COUNT, [n]) + more != "" && (Fill(COUNT, [n]) + more)[0] == ']'
    ensures ReadFields(Fill(COUNT, [n]) + more, COUNT) == Some(([n], more))
  {
    FillTwo("] /Count ", " >>\nendobj\n", n);
    ShortTextsSeparate();
    FilledIsRead(COUNT, [n], more);
  }

  lemma TreeFrom(read: seq<Option<string>>, root: nat, tree: nat, after: string, list: string, ids: seq<nat>, rest: string,
                 count: nat, more: string)
    requires ReadObjectFields(read, root, CATALOGUE) == Some(([tree], after))
    requires ReadObjectFields(read, tree, TREE) == Some(([], list))
    requires ReadRefs(list) == (ids, rest) && ReadFields(rest, COUNT) == Some(([count], more))
    ensures ReadTree(read, root) == Some(Tree(tree, count, ReadPages(read, ids)))
  {}

  lemma CatalogueIsRead(read: seq<Option<string>>, objects: seq<string>) returns (more: string)
    requires Loaded(read, objects) && objects != [] && objects[0] == CATALOG
    ensures ReadObjectFields(read, 1, CATALOGUE) == Some(([2], more))
  {
    CatalogueText();
    ShortTextsSeparate();
    var later := ObjectFieldsAreRead(read, objects, 1, CATALOGUE, [2], "");
    more := "" + later;
  }

  lemma KidsAreRead(read: seq<Option<string>>, objects: seq<string>, n: nat) returns (list: string, rest: string, more: string)
    requires Loaded(read, objects) && |objects| >= 2 && objects[1] == PagesBody(n)
    ensures ReadObjectFields(read, 2, TREE) == Some(([], list))
    ensures ReadRefs(list) == (PageIds(0, n), rest) && ReadFields(rest, COUNT) == Some(([n], more))
  {
    TreeText(n);
    var kids, count := KidsFrom(0, n), Fill(COUNT, [n]);
    more := ObjectFieldsAreRead(read, objects, 2, TREE, [], kids + count);
    AssociateTwo(kids, count, more);
    CountIsRead(n, more);
    RefsAreRead(0, n, count + more);
    list, rest := kids + (count + more), count + more;
  }

  /** From the root the page tree is found, with the number of its pages and the pages in order. */
  lemma TreeIsRead(read: seq<Option<string>>, objects: seq<string>, n: nat)
    requires Loaded(read, objects) && |objects| >= 2 && objects[0] == CATALOG && objects[1] == PagesBody(n)
    ensures ReadTree(read, 1) == Some(Tree(2, n, ReadPages(read, PageIds(0, n))))
  {
    var after := CatalogueIsRead(read, objects);
    var list, rest, more := KidsAreRead(read, objects, n);
    TreeFrom(read, 1, 2, after, list, PageIds(0, n), rest, n, more);
  }

  // ---------------------------------------------------------------------------------------
  // The round trip

  lemma {:induction false} FirstObjects(pages: seq<seq<string>>, k: nat)
    requires k <= |pages|
    ensures ObjectsFor(pages, k)[..4] == [CATALOG, PagesBody(|pages|), FONT, BOLD_FONT]
  {
    if k > 0 {
      FirstObjects(pages, k - 1);
    }
  }

  lemma FontsAmong(objects: seq<string>, tree: string)
    requires |objects| >= 4 && objects[..4] == [CATALOG, tree, FONT, BOLD_FONT]
    ensures objects[0] == CATALOG && objects[1] == tree && objects[2] == FONT && objects[3] == BOLD_FONT
  {
    assert objects[2] == objects[..4][2] && objects[3] == objects[..4][3];
    assert objects[0] == objects[..4][0] && objects[1] == objects[..4][1];
  }

  /** What the reader should find for a page. */
  function PageOf(stream: string): Page {
    Page(2, [0, 0, 612, 792], Some(Helvetica), Some(HelveticaBold), Some(stream))
  }

  lemma PageFrom(read: seq<Option<string>>, id: nat, text: string, streamId: nat, stream: string)
    requires id < |read| && read[id] == Some(text)
    requires ReadPageEntries(text) == Some((2, [0, 0, 612, 792], [3, 4], streamId))
    requires ReadFont(read, 3) == Some(Helvetica) && ReadFont(read, 4) == Some(HelveticaBold)
    requires ReadStream(read, streamId) == Some(stream)
    ensures ReadPage(read, id) == Some(PageOf(stream))
  {}

  /** Every page object is a page that names its own stream. */
  ghost predicate PagesStand(read: seq<Option<string>>, n: nat) {
    && forall i :: 0 <= i < n ==>
         && PageId(i) < |read| && read[PageId(i)].Some?
         && ReadPageEntries(read[PageId(i)].value) == Some((2, [0, 0, 612, 792], [3, 4], PageId(i) + 1))
  }

  ghost predicate StreamsStand(read: seq<Option<string>>, pages: seq<seq<string>>) {
    forall i :: 0 <= i < |pages| ==> ReadStream(read, PageId(i) + 1) == Some(Stream(pages[i]))
  }

  lemma {:induction false} PageTextIsRead(read: seq<Option<string>>, objects: seq<string>, id: nat, streamId: nat)
    requires Loaded(read, objects) && 1 <= id <= |objects| && objects[id - 1] == PageBody(streamId)
    ensures read[id].Some? && ReadPageEntries(read[id].value) == Some((2, [0, 0, 612, 792], [3, 4], streamId))
  {
    var more := ObjectIsLoaded(read, objects, id);
    PageEntriesAreRead(streamId, more);
  }

  lemma {:induction false} PageTextsAreRead(read: seq<Option<string>>, pages: seq<seq<string>>)
    requires Loaded(read, ObjectsFor(pages, |pages|))
    ensures PagesStand(read, |pages|)
  {
    forall i | 0 <= i < |pages|
      ensures read[PageId(i)].Some?
      ensures ReadPageEntries(read[PageId(i)].value) == Some((2, [0, 0, 612, 792], [3, 4], PageId(i) + 1))
    {
      ObjectsInPlace(pages, |pages|, i);
      PageTextIsRead(read, ObjectsFor(pages, |pages|), PageId(i), PageId(i) + 1);
    }
  }

  lemma {:induction false} StreamsAreRead(read: seq<Option<string>>, pages: seq<seq<string>>)
    requires Loaded(read, ObjectsFor(pages, |pages|))
    ensures StreamsStand(read, pages)
  {
    forall i | 0 <= i < |pages| ensures ReadStream(read, PageId(i) + 1) == Some(Stream(pages[i])) {
      ObjectsInPlace(pages, |pages|, i);
      StreamIsRead(read, ObjectsFor(pages, |pages|), PageId(i) + 1, Stream(pages[i]));
    }
  }

  lemma {:induction false} TreeAndFontsAreRead(read: seq<Option<string>>, pages: seq<seq<string>>)
    requires Loaded(read, ObjectsFor(pages, |pages|))
    ensures ReadTree(read, 1) == Some(Tree(2, |pages|, ReadPages(read, PageIds(0, |pages|))))
    ensures ReadFont(read, 3) == Some(Helvetica) && ReadFont(read, 4) == Some(HelveticaBold)
  {
    var objects := ObjectsFor(pages, |pages|);
    FirstObjects(pages, |pages|);
    FontsAmong(objects, PagesBody(|pages|));
    TreeIsRead(read, objects, |pages|);
    FontsAreRead(read, objects);
  }

  lemma {:induction false} PagesFrom(read: seq<Option<string>>, pages: seq<seq<string>>)
    requires PagesStand(read, |pages|) && StreamsStand(read, pages)
    requires ReadFont(read, 3) == Some(Helvetica) && ReadFont(read, 4) == Some(HelveticaBold)
    ensures forall i :: 0 <= i < |pages| ==> ReadPage(read, PageId(i)) == Some(PageOf(Stream(pages[i])))
  {
    forall i | 0 <= i < |pages| ensures ReadPage(read, PageId(i)) == Some(PageOf(Stream(pages[i]))) {
      PageFrom(read, PageId(i), read[PageId(i)].value, PageId(i) + 1, Stream(pages[i]));
    }
  }

  lemma {:induction false} PagesAreRead(read: seq<Option<string>>, pages: seq<seq<string>>)
    requires Loaded(read, ObjectsFor(pages, |pages|))
    ensures var tree := ReadTree(read, 1);
            && tree.Some? && tree.value.id == 2 && tree.value.count == |tree.value.pages| == |pages|
            && forall i :: 0 <= i < |pages| ==> tree.value.pages[i] == Some(PageOf(Stream(pages[i])))
  {
    PageTextsAreRead(read, pages);
    StreamsAreRead(read, pages);
    TreeAndFontsAreRead(read, pages);
    PagesFrom(read, pages);
  }

  /** The round trip. A reader that starts at the end of the file and knows nothing of how it was written
      finds that the table and the trailer both count one more than the objects, that the table stands
      where the trailer says, that the page tree counts its pages, and every page, in order, with its
      parent, its size, its fonts and the stream that was written for it. */
  lemma {:induction false} PagesReadBack(pages: seq<seq<string>>)
    requires Offset(ObjectsFor(pages, |pages|), 4 + 2 * |pages|) < 10_000_000_000
    ensures var file := File(ObjectsFor(pages, |pages|));
            && ReadBody(file).Some?
            && (var body := ReadBody(file).value;
                && body.entries == body.size == |body.objects| == 2 * |pages| + 5
                && body.tableAt == StartXref(file) && ReadTree(body.objects, body.root).Some?
                && (var tree := ReadTree(body.objects, body.root).value;
                    && tree.count == |tree.pages| == |pages|
                    && forall i :: 0 <= i < |pages| ==>
                         tree.pages[i] == Some(Page(tree.id, [0, 0, 612, 792], Some(Helvetica), Some(HelveticaBold),
                                                    Some(Stream(pages[i]))))))
  {
    BodyIsRead(ObjectsFor(pages, |pages|));
    PagesAreRead(ReadBody(File(ObjectsFor(pages, |pages|))).value.objects, pages);
  }

  // ---------------------------------------------------------------------------------------
  // The lines of a stream

  /** A stream is read line by line, up to each newline. */
  function LinesIn(stream: string, line: string): (lines: seq<string>)
    ensures lines != []
  {
    if stream == "" then [line]
    else if stream[0] == '\n' then [line] + LinesIn(stream[1..], "")
    else LinesIn(stream[1..], line + [stream[0]])
  }

  lemma {:induction false} LineIsRead(s: string, rest: string, line: string)
    requires '\n' !in s
    ensures LinesIn(s + rest, line) == LinesIn(rest, line + s)
  {
    if s == "" {
      assert s + rest == rest && line + s == line;
    } else {
      assert (s + rest)[1..] == s[1..] + rest && line + [s[0]] + s[1..] == line + s;
      LineIsRead(s[1..], rest, line + [s[0]]);
    }
  }

  lemma EncodedLine(s: string)
    requires '\n' !in s
    ensures '\n' !in Latin1(s)
  {}

  function EncodedLines(lines: seq<string>): (r: seq<string>)
    ensures |r| == |lines| && forall i :: 0 <= i < |lines| ==> r[i] == Latin1(lines[i])
  {
    seq(|lines|, i requires 0 <= i < |lines| => Latin1(lines[i]))
  }

  lemma EncodedJoin(first: string, more: string)
    ensures Latin1(first + "\n" + more) == Latin1(first) + ("\n" + Latin1(more))
  {}

  lemma FirstLine(first: string, more: string)
    requires '\n' !in first
    ensures LinesIn(first + ("\n" + more), "") == [first] + LinesIn(more, "")
  {
    LineIsRead(first, "\n" + more, "");
    assert ("\n" + more)[1..] == more && "" + first == first;
  }

  lemma JoinedLines(first: string, more: string)
    requires '\n' !in first
    ensures LinesIn(Latin1(first + "\n" + more), "") == [Latin1(first)] + LinesIn(Latin1(more), "")
  {
    EncodedLine(first);
    EncodedJoin(first, more);
    FirstLine(Latin1(first), Latin1(more));
  }

  /** The stream of a page holds the lines drawn on it, one after the other. */
  lemma {:induction false} StreamLinesAreRead(lines: seq<string>)
    requires lines != [] && forall i :: 0 <= i < |lines| ==> '\n' !in lines[i]
    ensures LinesIn(Stream(lines), "") == EncodedLines(lines)
  {
    if |lines| == 1 {
      EncodedLine(lines[0]);
      LineIsRead(Latin1(lines[0]), "", "");
      assert Latin1(lines[0]) + "" == Latin1(lines[0]) && "" + Latin1(lines[0]) == Latin1(lines[0]);
    } else {
      JoinedLines(lines[0], JoinLines(lines[1..]));
      StreamLinesAreRead(lines[1..]);
      assert EncodedLines(lines) == [Latin1(lines[0])] + EncodedLines(lines[1..]);
    }
  }
}
