/**
 * The grocery list as an iCalendar file (RFC 5545): a VCALENDAR holding one
 * VTODO per item, in list order, with CRLF between the lines. The clock
 * readings that stamp the to-dos and the currency formatter are inputs.
 */
module Ics {
  import opened Wrappers
  import opened JsText
  import opened Seqs
  import opened Budget

  const EOL: JsString := [CR, LF]

  const COLON: CodeUnit := 0x3A
  const DOT: CodeUnit := 0x2E
  const LETTER_T: CodeUnit := 0x54
  const LETTER_Z: CodeUnit := 0x5A

  // ---------------------------------------------------------------- DTSTAMP

  /** The characters of the class `[-:.]`. */
  predicate IsTimestampSeparator(c: CodeUnit)
  {
    c == MINUS || c == COLON || c == DOT
  }

  predicate KeepsUnit(c: CodeUnit)
  {
    !IsTimestampSeparator(c)
  }

  /** `s.replace(/[-:.]/g, '')`. */
  function StripSeparators(s: JsString): (r: JsString)
    ensures forall i :: 0 <= i < |r| ==> !IsTimestampSeparator(r[i])
  {
    var r := Filter(s, KeepsUnit);
    FilterMembers(s, KeepsUnit);
    assert forall i :: 0 <= i < |r| ==> r[i] in r;
    r
  }

  /**
   * The replace leaves no separator and works piece by piece, so the code
   * units it keeps stay in their order: a separator goes, any other code
   * unit stays, every occurrence of a code unit other than a separator is
   * kept, and a text without separators comes back unchanged.
   */
  lemma StripSeparatorsPiecewise(a: JsString, b: JsString, c: CodeUnit)
    ensures forall i :: 0 <= i < |StripSeparators(a)| ==> !IsTimestampSeparator(StripSeparators(a)[i])
    ensures StripSeparators(a + b) == StripSeparators(a) + StripSeparators(b)
    ensures StripSeparators([c]) == if IsTimestampSeparator(c) then [] else [c]
    ensures multiset(StripSeparators(a))[c] == if IsTimestampSeparator(c) then 0 else multiset(a)[c]
    ensures (forall i :: 0 <= i < |a| ==> !IsTimestampSeparator(a[i])) ==> StripSeparators(a) == a
  {
    FilterConcat(a, b, KeepsUnit);
    assert [c][1..] == [];
    FilterMultiset(a, KeepsUnit, c);
    if forall i :: 0 <= i < |a| ==> !IsTimestampSeparator(a[i]) {
      FilterAll(a, KeepsUnit);
    }
  }

  /** What position `i` of `YYYY-MM-DDTHH:mm:ss.sssZ` holds. */
  predicate IsoUnit(i: int, c: CodeUnit)
  {
    if i == 4 || i == 7 then c == MINUS
    else if i == 10 then c == LETTER_T
    else if i == 13 || i == 16 then c == COLON
    else if i == 19 then c == DOT
    else if i == 23 then c == LETTER_Z
    else IsDecimalDigit(c)
  }

  /** `Date.prototype.toISOString()` for the years 0 to 9999: `YYYY-MM-DDTHH:mm:ss.sssZ`. */
  predicate IsIsoTimestamp(s: JsString)
  {
    |s| == 24 && forall i :: 0 <= i < 24 ==> IsoUnit(i, s[i])
  }

  /** What position `i` of `YYYYMMDDTHHMMSSZ` holds. */
  predicate UtcUnit(i: int, c: CodeUnit)
  {
    if i == 8 then c == LETTER_T else if i == 15 then c == LETTER_Z else IsDecimalDigit(c)
  }

  /** A DATE-TIME in UTC, section 3.3.5 of RFC 5545 (form #2): `YYYYMMDDTHHMMSSZ`. */
  predicate IsUtcDateTime(s: JsString)
  {
    |s| == 16 && forall i :: 0 <= i < 16 ==> UtcUnit(i, s[i])
  }

  /** Stripping a piece without separators, then a separator, leaves the piece. */
  lemma StripPiece(a: JsString, c: CodeUnit, rest: JsString)
    requires forall i :: 0 <= i < |a| ==> KeepsUnit(a[i])
    requires IsTimestampSeparator(c)
    ensures StripSeparators(a + [c] + rest) == a + StripSeparators(rest)
  {
    FilterConcat(a + [c], rest, KeepsUnit);
    FilterConcat(a, [c], KeepsUnit);
    FilterAll(a, KeepsUnit);
  }

  /** The positions `lo` to `hi - 1` of a timestamp hold no separator. */
  lemma IsoPieceKept(iso: JsString, lo: nat, hi: nat)
    requires IsIsoTimestamp(iso) && lo <= hi <= 24
    requires hi <= 4 || (5 <= lo && hi <= 7) || (8 <= lo && hi <= 13) || (14 <= lo && hi <= 16) || (17 <= lo && hi <= 19) || 20 <= lo
    ensures forall i :: 0 <= i < |iso[lo..hi]| ==> KeepsUnit(iso[lo..hi][i])
  {
    forall i | 0 <= i < |iso[lo..hi]| ensures KeepsUnit(iso[lo..hi][i]) {
      assert iso[lo..hi][i] == iso[lo + i];
      assert IsoUnit(lo + i, iso[lo + i]);
    }
  }

  /** What the replace leaves of an ISO timestamp: the digits, the `T` and the final `Z`. */
  lemma StripIso(iso: JsString)
    requires IsIsoTimestamp(iso)
    ensures StripSeparators(iso) == iso[0..4] + iso[5..7] + iso[8..13] + iso[14..16] + iso[17..19] + iso[20..24]
  {
    assert iso[0..] == iso;
    StripUpTo(iso, 0, 4);
    StripUpTo(iso, 5, 7);
    StripUpTo(iso, 8, 13);
    StripUpTo(iso, 14, 16);
    StripUpTo(iso, 17, 19);
    IsoPieceKept(iso, 20, 24);
    FilterAll(iso[20..], KeepsUnit);
    assert iso[20..] == iso[20..24];
  }

  /** The replace on the timestamp from `lo` on keeps the piece up to the separator at `sep` and drops the separator. */
  lemma StripUpTo(iso: JsString, lo: nat, sep: nat)
    requires IsIsoTimestamp(iso)
    requires (lo, sep) == (0, 4) || (lo, sep) == (5, 7) || (lo, sep) == (8, 13) || (lo, sep) == (14, 16) || (lo, sep) == (17, 19)
    ensures StripSeparators(iso[lo..]) == iso[lo..sep] + StripSeparators(iso[sep + 1..])
  {
    assert IsoUnit(sep, iso[sep]);
    IsoPieceKept(iso, lo, sep);
    ghost var piece, tail := iso[lo..sep], iso[sep + 1..];
    assert iso[lo..] == piece + iso[sep..];
    assert iso[sep..] == [iso[sep]] + tail;
    assert iso[lo..] == piece + [iso[sep]] + tail;
    StripPiece(iso[lo..sep], iso[sep], iso[sep + 1..]);
  }

  /** The DTSTAMP value as the page writes it: the stripped ISO timestamp followed by another `Z`. */
  function DtStampAsWritten(iso: JsString): (r: JsString)
    ensures |r| >= 1 && r[|r| - 1] == LETTER_Z
  {
    StripSeparators(iso) + [LETTER_Z]
  }

  /**
   * Whatever the time, the value the page writes keeps the milliseconds and
   * ends in `ZZ`: twenty code units, not an RFC 5545 DATE-TIME.
   */
  lemma DtStampAsWrittenMalformed(iso: JsString)
    requires IsIsoTimestamp(iso)
    ensures |DtStampAsWritten(iso)| == 20
    ensures DtStampAsWritten(iso)[15..18] == iso[20..23]
    ensures DtStampAsWritten(iso)[18..] == [LETTER_Z, LETTER_Z]
    ensures !IsUtcDateTime(DtStampAsWritten(iso))
  {
    StripIso(iso);
    assert IsoUnit(23, iso[23]);
  }

  /**
   * The DTSTAMP value the format calls for: what the replace leaves up to
   * the seconds, then `Z`. It is a UTC DATE-TIME naming the timestamp's
   * year, month, day, hour, minute and second.
   */
  function DtStamp(iso: JsString): (r: JsString)
    requires IsIsoTimestamp(iso)
    ensures IsUtcDateTime(r)
    ensures |StripSeparators(iso)| == 19 && r == StripSeparators(iso)[..15] + [LETTER_Z]
    ensures r[..4] == iso[..4] && r[4..6] == iso[5..7] && r[6..8] == iso[8..10]
    ensures r[9..11] == iso[11..13] && r[11..13] == iso[14..16] && r[13..15] == iso[17..19]
  {
    var r := iso[0..4] + iso[5..7] + iso[8..13] + iso[14..16] + iso[17..19] + [LETTER_Z];
    StripIso(iso);
    assert r[6..11] == iso[8..13];
    forall k | 6 <= k < 11 ensures r[k] == iso[k + 2] {
      assert r[6..11][k - 6] == iso[8..13][k - 6];
    }
    assert r[..4] == iso[..4];
    assert r[4..6] == iso[5..7];
    assert r[6..8] == iso[8..10];
    assert r[9..11] == iso[11..13];
    assert r[11..13] == iso[14..16];
    assert r[13..15] == iso[17..19];
    assert StripSeparators(iso)[..15] == iso[0..4] + iso[5..7] + iso[8..13] + iso[14..16] + iso[17..19];
    assert IsUtcDateTime(r) by {
      forall i | 0 <= i < 16 ensures UtcUnit(i, r[i]) {
        if i < 4 { assert r[i] == iso[i] && IsoUnit(i, iso[i]); }
        else if i < 6 { assert r[i] == iso[i + 1] && IsoUnit(i + 1, iso[i + 1]); }
        else if i < 11 { assert IsoUnit(i + 2, iso[i + 2]); }
        else if i < 13 { assert r[i] == iso[i + 3] && IsoUnit(i + 3, iso[i + 3]); }
        else if i < 15 { assert r[i] == iso[i + 4] && IsoUnit(i + 4, iso[i + 4]); }
      }
    }
    r
  }

  /** Which DTSTAMP value the builder writes: the page's own, or the RFC 5545 one it evidently means. */
  datatype Stamping = AsWritten | Corrected

  function DtStampValue(v: Stamping, stamp: JsString): JsString
    requires IsIsoTimestamp(stamp)
  {
    match v
    case AsWritten => DtStampAsWritten(stamp)
    case Corrected => DtStamp(stamp)
  }

  predicate AllIsoTimestamps(stamps: seq<JsString>)
  {
    forall k :: 0 <= k < |stamps| ==> IsIsoTimestamp(stamps[k])
  }

  /** The DTSTAMP value of each clock reading. */
  function DtStamps(v: Stamping, stamps: seq<JsString>): (ds: seq<JsString>)
    requires AllIsoTimestamps(stamps)
    ensures |ds| == |stamps|
    ensures forall k :: 0 <= k < |ds| ==> ds[k] == DtStampValue(v, stamps[k])
  {
    seq(|stamps|, k requires 0 <= k < |stamps| && AllIsoTimestamps(stamps) => DtStampValue(v, stamps[k]))
  }

  // ------------------------------------------------------------- the lines

  function HeaderLines(): seq<JsString>
  {
    [Bmp("BEGIN:VCALENDAR"), Bmp("VERSION:2.0"), Bmp("PRODID:-//ElikiaTools//NONSGML v1.0//EN")]
  }

  function BeginTodo(): JsString { Bmp("BEGIN:VTODO") }

  function EndCalendar(): JsString { Bmp("END:VCALENDAR") }

  /** The five lines of one item's VTODO, with DTSTAMP value `dtstamp` and `fmt` the page's currency formatter. */
  function TodoLines(item: GroceryItem, dtstamp: JsString, fmt: int -> JsString): (ls: seq<JsString>)
    ensures |ls| == 5 && ls[0] == BeginTodo() && ls[1] == Bmp("DTSTAMP:") + dtstamp
  {
    [ BeginTodo(),
      Bmp("DTSTAMP:") + dtstamp,
      Bmp("UID:") + item.id + Bmp("@elikiatools.com"),
      Bmp("SUMMARY:") + item.name + Bmp(" (") + fmt(item.price) + Bmp(")"),
      Bmp("END:VTODO") ]
  }

  /** The VTODO lines of the items, item `k` carrying the `k`-th DTSTAMP value. */
  function TodoBlocks(items: seq<GroceryItem>, ds: seq<JsString>, fmt: int -> JsString): (ls: seq<JsString>)
    requires |ds| == |items|
    ensures |ls| == 5 * |items|
  {
    if items == [] then []
    else
      var n := |items| - 1;
      TodoBlocks(items[..n], ds[..n], fmt) + TodoLines(items[n], ds[n], fmt)
  }

  /** The lines of the file: the header, the blocks, the closing line. */
  function IcsLines(items: seq<GroceryItem>, ds: seq<JsString>, fmt: int -> JsString): seq<JsString>
    requires |ds| == |items|
  {
    HeaderLines() + TodoBlocks(items, ds, fmt) + [EndCalendar()]
  }

  /** Each line followed by CRLF. */
  function Terminated(lines: seq<JsString>): JsString
  {
    if lines == [] then [] else Terminated(lines[..|lines| - 1]) + (lines[|lines| - 1] + EOL)
  }

  /** `lines.join("\r\n")`. */
  function JoinCrlf(lines: seq<JsString>): JsString
    requires lines != []
  {
    if |lines| == 1 then lines[0] else JoinCrlf(lines[..|lines| - 1]) + EOL + lines[|lines| - 1]
  }

  /** The text the download holds: every line CRLF-terminated except the closing one. */
  function IcsDocument(items: seq<GroceryItem>, ds: seq<JsString>, fmt: int -> JsString): JsString
    requires |ds| == |items|
  {
    Terminated(HeaderLines() + TodoBlocks(items, ds, fmt)) + EndCalendar()
  }

  lemma {:induction false} TerminatedConcat(a: seq<JsString>, b: seq<JsString>)
    ensures Terminated(a + b) == Terminated(a) + Terminated(b)
    decreases |b|
  {
    if b == [] {
      assert a + b == a;
    } else {
      var n := |b| - 1;
      assert (a + b)[..|a + b| - 1] == a + b[..n];
      TerminatedConcat(a, b[..n]);
    }
  }

  lemma {:induction false} TerminatedThenLast(lines: seq<JsString>, last: JsString)
    ensures Terminated(lines) + last == JoinCrlf(lines + [last])
    decreases |lines|
  {
    if lines == [] {
      assert lines + [last] == [last];
    } else {
      var n := |lines| - 1;
      assert (lines + [last])[..n + 1] == lines;
      assert lines[..n] + [lines[n]] == lines;
      TerminatedThenLast(lines[..n], lines[n]);
    }
  }

  lemma TerminatedThree(a: JsString, b: JsString, c: JsString)
    ensures Terminated([a, b, c]) == a + EOL + b + EOL + c + EOL
  {
    assert [a, b, c][..2] == [a, b] && [a, b][..1] == [a] && [a][..0] == [];
    assert Terminated([a]) == a + EOL;
    assert Terminated([a, b]) == a + EOL + b + EOL;
  }

  /** One more line, CRLF-terminated. */
  lemma TerminatedSnoc(lines: seq<JsString>, x: JsString)
    ensures Terminated(lines + [x]) == Terminated(lines) + (x + EOL)
  {
    assert (lines + [x])[..|lines|] == lines;
  }

  /** The file is its lines joined with CRLF. */
  lemma IcsDocumentIsJoin(items: seq<GroceryItem>, ds: seq<JsString>, fmt: int -> JsString)
    requires |ds| == |items|
    ensures IcsDocument(items, ds, fmt) == JoinCrlf(IcsLines(items, ds, fmt))
  {
    TerminatedThenLast(HeaderLines() + TodoBlocks(items, ds, fmt), EndCalendar());
  }

  /** Item `k`'s block occupies lines `5k` to `5k + 4` of the blocks. */
  lemma {:induction false} TodoBlockAt(items: seq<GroceryItem>, ds: seq<JsString>, fmt: int -> JsString, k: nat)
    requires |ds| == |items| && k < |items|
    ensures TodoBlocks(items, ds, fmt)[5 * k..5 * k + 5] == TodoLines(items[k], ds[k], fmt)
    decreases |items|
  {
    var n := |items| - 1;
    var prefix := TodoBlocks(items[..n], ds[..n], fmt);
    var last := TodoLines(items[n], ds[n], fmt);
    assert TodoBlocks(items, ds, fmt) == prefix + last;
    if k < n {
      TodoBlockAt(items[..n], ds[..n], fmt, k);
      assert items[..n][k] == items[k] && ds[..n][k] == ds[k];
      assert (prefix + last)[5 * k..5 * k + 5] == prefix[5 * k..5 * k + 5];
    } else {
      assert (prefix + last)[5 * k..5 * k + 5] == last;
    }
  }

  /**
   * The lines of the file: the three header lines, then for each item in
   * list order its five-line block opening with BEGIN:VTODO, then
   * END:VCALENDAR, and no other line.
   */
  lemma IcsLinesStructure(items: seq<GroceryItem>, ds: seq<JsString>, fmt: int -> JsString)
    requires |ds| == |items|
    ensures var ls := IcsLines(items, ds, fmt);
      && |ls| == 4 + 5 * |items|
      && ls[..3] == HeaderLines()
      && ls[|ls| - 1] == EndCalendar()
      && (forall k :: 0 <= k < |items| ==> ls[3 + 5 * k..8 + 5 * k] == TodoLines(items[k], ds[k], fmt))
  {
    var ls := IcsLines(items, ds, fmt);
    var blocks := TodoBlocks(items, ds, fmt);
    assert ls[..3] == HeaderLines();
    forall k | 0 <= k < |items|
      ensures ls[3 + 5 * k..8 + 5 * k] == TodoLines(items[k], ds[k], fmt)
    {
      TodoBlockAt(items, ds, fmt, k);
      assert ls[3 + 5 * k..8 + 5 * k] == blocks[5 * k..5 * k + 5];
    }
  }

  /**
   * Item `k`'s DTSTAMP line. The page's own value puts twenty code units
   * after `DTSTAMP:`, ending in `ZZ`, which is never a UTC DATE-TIME; the
   * corrected value is one.
   */
  lemma DtStampLine(items: seq<GroceryItem>, stamps: seq<JsString>, fmt: int -> JsString, v: Stamping, k: nat)
    requires |stamps| == |items| && AllIsoTimestamps(stamps) && k < |items|
    ensures var line := IcsLines(items, DtStamps(v, stamps), fmt)[4 + 5 * k];
      && |line| == (if v.AsWritten? then 28 else 24)
      && line[..8] == Bmp("DTSTAMP:")
      && (v.AsWritten? ==> line[26..] == [LETTER_Z, LETTER_Z] && !IsUtcDateTime(line[8..]))
      && (v.Corrected? ==> IsUtcDateTime(line[8..]))
  {
    var ds := DtStamps(v, stamps);
    IcsLinesStructure(items, ds, fmt);
    var ls := IcsLines(items, ds, fmt);
    assert ls[4 + 5 * k] == ls[3 + 5 * k..8 + 5 * k][1];
    var value := DtStampValue(v, stamps[k]);
    var line := Bmp("DTSTAMP:") + value;
    assert ls[4 + 5 * k] == line;
    assert line[8..] == value;
    if v.AsWritten? {
      DtStampAsWrittenMalformed(stamps[k]);
      assert line[26..] == value[18..];
    }
  }

  // ------------------------------------------------------------ the builder

  /**
   * `handleDownloadICS` up to the download: nothing for an empty list,
   * otherwise the header, then the five lines of each item appended in
   * turn, item `k` stamped from the `k`-th clock reading, then the closing
   * line.
   */
  method BuildIcs(items: seq<GroceryItem>, stamps: seq<JsString>, fmt: int -> JsString, v: Stamping) returns (ics: Option<JsString>)
    requires |stamps| == |items| && AllIsoTimestamps(stamps)
    ensures items == [] <==> ics.None?
    ensures ics.Some? ==> ics.value == IcsDocument(items, DtStamps(v, stamps), fmt)
  {
    if |items| == 0 {
      return None;
    }
    var icsString := Bmp("BEGIN:VCALENDAR") + EOL + Bmp("VERSION:2.0") + EOL +
      Bmp("PRODID:-//ElikiaTools//NONSGML v1.0//EN") + EOL;
    ghost var header := HeaderLines();
    TerminatedThree(Bmp("BEGIN:VCALENDAR"), Bmp("VERSION:2.0"), Bmp("PRODID:-//ElikiaTools//NONSGML v1.0//EN"));
    icsString := AppendTodos(icsString, header, items, stamps, fmt, v);
    icsString := icsString + Bmp("END:VCALENDAR");
    return Some(icsString);
  }

  /** The `forEach` over the items: each item's block appended in list order. */
  method AppendTodos(start: JsString, ghost header: seq<JsString>, items: seq<GroceryItem>, stamps: seq<JsString>, fmt: int -> JsString, v: Stamping)
    returns (icsString: JsString)
    requires |stamps| == |items| && AllIsoTimestamps(stamps)
    requires start == Terminated(header)
    ensures icsString == Terminated(header + TodoBlocks(items, DtStamps(v, stamps), fmt))
  {
    ghost var ds := DtStamps(v, stamps);
    icsString := start;
    assert header + TodoBlocks(items[..0], ds[..0], fmt) == header;
    var i := 0;
    while i < |items|
      invariant 0 <= i <= |items|
      invariant icsString == Terminated(header + TodoBlocks(items[..i], ds[..i], fmt))
    {
      ghost var done := header + TodoBlocks(items[..i], ds[..i], fmt);
      NextBlock(header, items, ds, fmt, i);
      assert IsIsoTimestamp(stamps[i]);
      icsString := AppendTodo(icsString, done, items[i], stamps[i], fmt, v);
      i := i + 1;
    }
    assert items[..i] == items && ds[..i] == ds;
  }

  /**
   * The `forEach` callback: appends the item's five lines, each followed by
   * CRLF, to the text built so far (`done` is the list of lines it holds).
   * The DTSTAMP line is computed from the clock reading `stamp`.
   */
  method AppendTodo(icsString: JsString, ghost done: seq<JsString>, item: GroceryItem, stamp: JsString, fmt: int -> JsString, v: Stamping)
    returns (s: JsString)
    requires IsIsoTimestamp(stamp)
    requires icsString == Terminated(done)
    ensures s == Terminated(done + TodoLines(item, DtStampValue(v, stamp), fmt))
  {
    ghost var ls := TodoLines(item, DtStampValue(v, stamp), fmt);
    s := icsString + (Bmp("BEGIN:VTODO") + EOL);
    TerminatedSnoc(done, ls[0]);
    s := s + (Bmp("DTSTAMP:") + DtStampValue(v, stamp) + EOL);
    TerminatedSnoc(done + [ls[0]], ls[1]);
    s := s + (Bmp("UID:") + item.id + Bmp("@elikiatools.com") + EOL);
    TerminatedSnoc(done + [ls[0]] + [ls[1]], ls[2]);
    s := s + (Bmp("SUMMARY:") + item.name + Bmp(" (") + fmt(item.price) + Bmp(")") + EOL);
    TerminatedSnoc(done + [ls[0]] + [ls[1]] + [ls[2]], ls[3]);
    s := s + (Bmp("END:VTODO") + EOL);
    TerminatedSnoc(done + [ls[0]] + [ls[1]] + [ls[2]] + [ls[3]], ls[4]);
    assert done + [ls[0]] + [ls[1]] + [ls[2]] + [ls[3]] + [ls[4]] == done + ls;
  }

  /** The blocks of one more item: those before, then its five lines. */
  lemma NextBlock(header: seq<JsString>, items: seq<GroceryItem>, ds: seq<JsString>, fmt: int -> JsString, i: nat)
    requires |ds| == |items| && i < |items|
    ensures header + TodoBlocks(items[..i + 1], ds[..i + 1], fmt) ==
      header + TodoBlocks(items[..i], ds[..i], fmt) + TodoLines(items[i], ds[i], fmt)
  {
    assert items[..i + 1][..i] == items[..i] && ds[..i + 1][..i] == ds[..i];
  }
}
