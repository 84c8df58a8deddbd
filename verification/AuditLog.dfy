/** The append-only log file of one session: agent.py, AuditLog._read_path, _last_entry and
    append_or_raise. */
module AuditLog {
  import opened Wrappers
  import opened Utf8
  import opened AuditChain

  const TAIL_WINDOW: nat := 65536
  const NEWLINE: byte := 10

  /** Canonical JSON for records, and json.loads (None stands for a decoding error). */
  datatype Codec = Codec(render: Record -> string, parse: string -> Option<Record>)

  /** Where str.splitlines cuts. */
  predicate IsBreak(c: char) {
    var n := c as int;
    10 <= n <= 13 || 28 <= n <= 30 || n == 0x85 || n == 0x2028 || n == 0x2029
  }

  /** What str.strip removes. */
  predicate IsSpace(c: char) {
    var n := c as int;
    9 <= n <= 13 || 28 <= n <= 32 || n == 0x85 || n == 0xA0 || n == 0x1680 || 0x2000 <= n <= 0x200A
    || n == 0x2028 || n == 0x2029 || n == 0x202F || n == 0x205F || n == 0x3000
  }

  /** A line ends at the newline and its kin, at the three separators of ASCII below the blank, and at
      U+0085, U+2028 and U+2029. */
  lemma BreaksAre(c: char)
    ensures IsBreak(c) <==> c as int in {10, 11, 12, 13, 28, 29, 30, 0x85, 0x2028, 0x2029}
  {
  }

  /** What a rendered record can hold of these: only the last three. */
  lemma CleanIff(line: string)
    requires forall i :: 0 <= i < |line| ==> line[i] >= ' '
    ensures Clean(line) <==> forall c :: c in line ==> c as int !in {0x85, 0x2028, 0x2029}
  {
    forall i | 0 <= i < |line|
      ensures IsBreak(line[i]) <==> line[i] as int in {0x85, 0x2028, 0x2029}
    {
      BreaksAre(line[i]);
    }
    if !Clean(line) {
      var i :| 0 <= i < |line| && IsBreak(line[i]);
      assert line[i] in line;
    }
  }

  lemma SpacesAre(c: char)
    ensures IsSpace(c) <==>
              || c as int in {9, 10, 11, 12, 13, 28, 29, 30, 31, 32, 0x85, 0xA0, 0x1680}
              || c as int in {0x2000, 0x2001, 0x2002, 0x2003, 0x2004, 0x2005, 0x2006, 0x2007, 0x2008, 0x2009, 0x200A}
              || c as int in {0x2028, 0x2029, 0x202F, 0x205F, 0x3000}
  {
  }

  lemma BlankBytesAre(line: seq<byte>)
    ensures BlankBytes(line) <==> forall b :: b in line ==> b in {9, 10, 11, 12, 13, 32}
  {
    if BlankBytes(line) {
      forall b | b in line
        ensures b in {9, 10, 11, 12, 13, 32}
      {
        var i :| 0 <= i < |line| && line[i] == b;
      }
    }
    if forall b :: b in line ==> b in {9, 10, 11, 12, 13, 32} {
      forall i | 0 <= i < |line|
        ensures 9 <= line[i] <= 13 || line[i] == 32
      {
        assert line[i] in line;
      }
    }
  }

  function FindBreak(t: string): (p: nat)
    ensures p <= |t| && (p < |t| ==> IsBreak(t[p])) && forall i :: 0 <= i < p ==> !IsBreak(t[i])
  {
    if t == [] || IsBreak(t[0]) then 0 else 1 + FindBreak(t[1..])
  }

  /** The stretches between line breaks. */
  function Pieces(t: string): seq<string>
    decreases |t|
  {
    var p := FindBreak(t);
    if p == |t| then [t] else [t[..p]] + Pieces(t[p + 1..])
  }

  predicate Blank(line: string) {
    forall i :: 0 <= i < |line| ==> IsSpace(line[i])
  }

  datatype ReadError = Undecodable | TornAfter(intact: nat)

  /** The records the lines hold, after those already read; the first unreadable line stops it. */
  function ReadLines(lines: seq<string>, records: seq<Record>, parse: string -> Option<Record>)
    : Result<seq<Record>, ReadError>
    decreases |lines|
  {
    if lines == [] then Ok(records)
    else if Blank(lines[0]) then ReadLines(lines[1..], records, parse)
    else
      match parse(lines[0])
      case None => Err(TornAfter(|records|))
      case Some(r) => ReadLines(lines[1..], records + [r], parse)
  }

  function ReadBytes(file: seq<byte>, codec: Codec): Result<seq<Record>, ReadError> {
    match DecodeStrict(file)
    case None => Err(Undecodable)
    case Some(t) => ReadLines(Pieces(t), [], codec.parse)
  }

  function FindNewline(b: seq<byte>): (p: nat)
    ensures p <= |b| && (p < |b| ==> b[p] == NEWLINE) && forall i :: 0 <= i < p ==> b[i] != NEWLINE
  {
    if b == [] || b[0] == NEWLINE then 0 else 1 + FindNewline(b[1..])
  }

  /** bytes.split at the newline. */
  function ByteLines(b: seq<byte>): (lines: seq<seq<byte>>)
    ensures lines != []
    decreases |b|
  {
    var p := FindNewline(b);
    if p == |b| then [b] else [b[..p]] + ByteLines(b[p + 1..])
  }

  /** What bytes.strip leaves nothing of. */
  predicate BlankBytes(line: seq<byte>) {
    forall i :: 0 <= i < |line| ==> 9 <= line[i] <= 13 || line[i] == 32
  }

  function LastNonBlank(lines: seq<seq<byte>>): Option<seq<byte>> {
    if lines == [] then None
    else if !BlankBytes(lines[|lines| - 1]) then Some(lines[|lines| - 1])
    else LastNonBlank(lines[..|lines| - 1])
  }

  datatype LastEntry = NoEntry | Entry(record: Record) | Torn

  function Tail(file: seq<byte>, window: nat): seq<byte> {
    if |file| <= window then file else file[|file| - window..]
  }

  function ParseLine(line: seq<byte>, codec: Codec): LastEntry {
    match DecodeStrict(line)
    case None => Torn
    case Some(t) =>
      match codec.parse(t)
      case None => Torn
      case Some(r) => Entry(r)
  }

  /** _last_entry: only a bounded tail of the file is looked at. */
  function LastEntryOf(file: seq<byte>, window: nat, codec: Codec): LastEntry {
    match LastNonBlank(ByteLines(Tail(file, window)))
    case None => NoEntry
    case Some(line) => ParseLine(line, codec)
  }

  /** The file after append_or_raise; None is a refusal. */
  function AppendTo(file: seq<byte>, body: Body, window: nat, codec: Codec, key: Option<Mac>, hash: Hash)
    : Option<seq<byte>>
  {
    var last := LastEntryOf(file, window, codec);
    if last.Torn? then None else
    match NewEntry(if last.Entry? then Some(last.record) else None, body, key, hash)
    case None => None
    case Some(entry) => Some(file + Encode(codec.render(entry) + "\n"))
  }

  /** One session's log on disk. */
  class Log {
    const codec: Codec
    const key: Option<Mac>
    const hash: Hash
    var file: Option<seq<byte>>

    constructor (codec: Codec, key: Option<Mac>, hash: Hash)
      ensures this.codec == codec && this.key == key && this.hash == hash && file == None
    {
      this.codec := codec;
      this.key := key;
      this.hash := hash;
      file := None;
    }

    /** The bytes on disk; a file that was never written has none. */
    function Contents(): (bytes: seq<byte>)
      reads this
      ensures file == Some(bytes) || (file == None && |bytes| == 0)
    {
      if file.None? then [] else file.value
    }

    /** _read_path: the records gathered line by line. */
    method Read() returns (r: Result<seq<Record>, ReadError>)
      ensures r == ReadBytes(Contents(), codec)
    {
      var text := DecodeStrict(Contents());
      if text.None? {
        return Err(Undecodable);
      }
      var lines := Pieces(text.value);
      var records: seq<Record> := [];
      var n := 0;
      assert lines[0..] == lines;
      while n < |lines|
        invariant 0 <= n <= |lines|
        invariant ReadLines(lines[n..], records, codec.parse) == ReadLines(lines, [], codec.parse)
      {
        assert lines[n..][1..] == lines[n + 1..];
        if !Blank(lines[n]) {
          var record := codec.parse(lines[n]);
          if record.None? {
            return Err(TornAfter(|records|));
          }
          records := records + [record.value];
        }
        n := n + 1;
      }
      r := Ok(records);
    }

    /** append_or_raise: a record that states this body is added behind the file's bytes; on refusal the
        file is left exactly as it was. */
    method AppendOrRaise(body: Body) returns (ok: bool)
      modifies this
      ensures var after := AppendTo(old(Contents()), body, TAIL_WINDOW, codec, key, hash);
              && ok == after.Some?
              && file == if ok then after else old(file)
      ensures ok ==> exists entry :: States(entry, body)
                       && file == Some(old(Contents()) + Encode(codec.render(entry) + "\n"))
    {
      var last := LastEntryOf(Contents(), TAIL_WINDOW, codec);
      if last.Torn? {
        return false;
      }
      var prior := if last.Entry? then Some(last.record) else None;
      var entry := NewEntry(prior, body, key, hash);
      if entry.None? {
        return false;
      }
      NewEntryStates(prior, body, key, hash);
      file := Some(Contents() + Encode(codec.render(entry.value) + "\n"));
      ok := true;
    }
  }

  // What the log relies on of the JSON writer: one object on one line, which no cut of it resembles.

  ghost predicate Faithful(r: Record, codec: Codec) {
    var line := codec.render(r);
    && codec.parse(line) == Some(r)
    && |line| >= 2 && line[0] == '{' && line[|line| - 1] == '}'
    && (forall i :: 0 <= i < |line| ==> line[i] >= ' ')
    && (forall k :: 0 < k < |line| ==> codec.parse(line[..k]) == None && codec.parse(line[k..]) == None)
  }

  ghost predicate AllFaithful(records: seq<Record>, codec: Codec) {
    forall i :: 0 <= i < |records| ==> Faithful(records[i], codec)
  }

  /** No separator only splitlines honours: U+0085, U+2028 or U+2029. */
  predicate Clean(line: string) {
    forall i :: 0 <= i < |line| ==> !IsBreak(line[i])
  }

  function FileText(records: seq<Record>, codec: Codec): string {
    if records == [] then []
    else codec.render(records[0]) + "\n" + FileText(records[1..], codec)
  }

  // Reading the whole file.

  lemma PiecesOfLine(line: string, rest: string)
    requires Clean(line)
    ensures Pieces(line + "\n" + rest) == [line] + Pieces(rest)
  {
    var t := line + "\n" + rest;
    var p := FindBreak(t);
    assert t[|line|] == '\n';
    assert forall i :: 0 <= i < |line| ==> t[i] == line[i];
    assert p == |line|;
    assert t[..p] == line && t[p + 1..] == rest;
  }

  lemma PiecesOfBrokenLine(line: string, rest: string) returns (p: nat)
    requires line != [] && !IsBreak(line[0]) && !Clean(line)
    ensures 0 < p < |line| && Pieces(line + rest)[0] == line[..p]
    ensures Pieces(line + rest) != []
  {
    var t := line + rest;
    p := FindBreak(t);
    var i :| 0 <= i < |line| && IsBreak(line[i]);
    assert t[i] == line[i];
    assert t[0] == line[0];
    assert t[..p] == line[..p];
  }

  lemma ReadsFirstLine(before: seq<Record>, r: Record, rest: string, codec: Codec)
    requires Faithful(r, codec)
    ensures ReadLines(Pieces(codec.render(r) + "\n" + rest), before, codec.parse)
            == if Clean(codec.render(r)) then ReadLines(Pieces(rest), before + [r], codec.parse)
               else Err(TornAfter(|before|))
  {
    var line := codec.render(r);
    assert !IsSpace(line[0]);
    if Clean(line) {
      PiecesOfLine(line, rest);
      assert ([line] + Pieces(rest))[1..] == Pieces(rest);
    } else {
      assert line + "\n" + rest == line + ("\n" + rest);
      var p := PiecesOfBrokenLine(line, "\n" + rest);
      assert !IsSpace(line[..p][0]);
    }
  }

  ghost predicate AllClean(records: seq<Record>, codec: Codec) {
    forall i :: 0 <= i < |records| ==> Clean(codec.render(records[i]))
  }

  lemma AllCleanSplit(records: seq<Record>, codec: Codec)
    requires records != []
    ensures AllClean(records, codec) <==> Clean(codec.render(records[0])) && AllClean(records[1..], codec)
  {
    if AllClean(records[1..], codec) && Clean(codec.render(records[0])) {
      forall i | 0 <= i < |records|
        ensures Clean(codec.render(records[i]))
      {
        if i > 0 {
          assert records[i] == records[1..][i - 1];
        }
      }
    }
  }

  type TextReader = (string, seq<Record>) -> Result<seq<Record>, ReadError>

  /** The reader takes the rendered record at the head of a text, or stops at it. */
  ghost predicate TakesOne(read: TextReader, before: seq<Record>, r: Record, rest: string, codec: Codec) {
    var got := read(codec.render(r) + "\n" + rest, before);
    if Clean(codec.render(r)) then got == read(rest, before + [r]) else got.Err?
  }

  lemma FileTextHead(records: seq<Record>, more: string, codec: Codec)
    requires records != []
    ensures FileText(records, codec) + more
            == codec.render(records[0]) + "\n" + (FileText(records[1..], codec) + more)
  {
  }

  lemma {:induction false} TakesWholeFile(read: TextReader,
      before: seq<Record>, records: seq<Record>, more: string, codec: Codec)
    requires forall b, r, rest :: Faithful(r, codec) ==> TakesOne(read, b, r, rest, codec)
    requires AllFaithful(records, codec)
    ensures !AllClean(records, codec) ==> read(FileText(records, codec) + more, before).Err?
    ensures AllClean(records, codec) ==>
              read(FileText(records, codec) + more, before) == read(more, before + records)
    decreases |records|
  {
    if records == [] {
      assert [] + more == more;
      assert before + [] == before;
    } else {
      assert Faithful(records[0], codec);
      FileTextHead(records, more, codec);
      assert TakesOne(read, before, records[0], FileText(records[1..], codec) + more, codec);
      TailFaithful(records, codec);
      AllCleanSplit(records, codec);
      if Clean(codec.render(records[0])) {
        TakesWholeFile(read, before + [records[0]], records[1..], more, codec);
        assert before + [records[0]] + records[1..] == before + records;
      }
    }
  }

  /** Clean records are read one by one, whatever text follows them. */
  lemma ReadLinesOfFile(before: seq<Record>, records: seq<Record>, more: string, codec: Codec)
    requires AllFaithful(records, codec)
    ensures var r := ReadLines(Pieces(FileText(records, codec) + more), before, codec.parse);
            && (!AllClean(records, codec) ==> r.Err?)
            && (AllClean(records, codec) ==> r == ReadLines(Pieces(more), before + records, codec.parse))
  {
    var read := (t: string, b: seq<Record>) => ReadLines(Pieces(t), b, codec.parse);
    forall b, r, rest | Faithful(r, codec)
      ensures TakesOne(read, b, r, rest, codec)
    {
      ReadsFirstLine(b, r, rest, codec);
    }
    TakesWholeFile(read, before, records, more, codec);
  }

  lemma ReadEmpty(records: seq<Record>, codec: Codec)
    ensures ReadLines(Pieces([]), records, codec.parse) == Ok(records)
  {
    assert Pieces([]) == [[]];
  }

  ghost predicate FreeOfSeparators(records: seq<Record>, codec: Codec) {
    forall i :: 0 <= i < |records| ==>
      forall c :: c in codec.render(records[i]) ==> c as int !in {0x85, 0x2028, 0x2029}
  }

  lemma AllCleanIff(records: seq<Record>, codec: Codec)
    requires AllFaithful(records, codec)
    ensures AllClean(records, codec) <==> FreeOfSeparators(records, codec)
  {
    forall i | 0 <= i < |records|
      ensures Clean(codec.render(records[i])) <==>
                forall c :: c in codec.render(records[i]) ==> c as int !in {0x85, 0x2028, 0x2029}
    {
      assert Faithful(records[i], codec);
      CleanIff(codec.render(records[i]));
    }
  }

  /** The full read gives the records back exactly when none of them holds a separator that only
      splitlines honours, which are U+0085, U+2028 and U+2029; otherwise it raises. */
  lemma ReadsBackIffClean(records: seq<Record>, codec: Codec)
    requires AllFaithful(records, codec)
    ensures var r := ReadBytes(Encode(FileText(records, codec)), codec);
            && (r.Ok? <==> AllClean(records, codec))
            && (r.Ok? <==> FreeOfSeparators(records, codec))
            && (r.Ok? ==> r.value == records)
  {
    AllCleanIff(records, codec);
    StrictRoundTrip(FileText(records, codec));
    ReadLinesOfFile([], records, [], codec);
    assert FileText(records, codec) + [] == FileText(records, codec);
    assert [] + records == records;
    ReadEmpty(records, codec);
  }

  lemma TailFaithful(records: seq<Record>, codec: Codec)
    requires records != [] && AllFaithful(records, codec)
    ensures AllFaithful(records[1..], codec)
  {
    forall i | 0 <= i < |records[1..]|
      ensures Faithful(records[1..][i], codec)
    {
      assert Faithful(records[i + 1], codec);
    }
  }

  // Reading the tail.

  lemma ByteLinesOfLine(line: seq<byte>, rest: seq<byte>)
    requires NEWLINE !in line
    ensures ByteLines(line + [NEWLINE] + rest) == [line] + ByteLines(rest)
  {
    var b := line + [NEWLINE] + rest;
    assert b[|line|] == NEWLINE;
    assert forall i :: 0 <= i < |line| ==> b[i] == line[i];
    assert FindNewline(b) == |line|;
    assert b[..|line|] == line && b[|line| + 1..] == rest;
  }

  lemma ByteLinesOne(line: seq<byte>)
    requires NEWLINE !in line
    ensures ByteLines(line) == [line]
  {
    assert FindNewline(line) == |line|;
  }

  lemma ByteLinesSplitStep(line: seq<byte>, rest: seq<byte>, b: seq<byte>)
    requires NEWLINE !in line
    requires ByteLines(rest + [NEWLINE] + b) == ByteLines(rest) + ByteLines(b)
    ensures var a := line + [NEWLINE] + rest; ByteLines(a + [NEWLINE] + b) == ByteLines(a) + ByteLines(b)
  {
    Reassociate(line + [NEWLINE], rest, [NEWLINE]);
    Reassociate(line + [NEWLINE], rest + [NEWLINE], b);
    ByteLinesOfLine(line, rest + [NEWLINE] + b);
    ByteLinesOfLine(line, rest);
    ConsLines(line, ByteLines(rest), ByteLines(b));
  }

  lemma ConsLines(line: seq<byte>, x: seq<seq<byte>>, y: seq<seq<byte>>)
    ensures [line] + (x + y) == [line] + x + y
  {
  }

  lemma {:induction false} ByteLinesSplit(a: seq<byte>, b: seq<byte>)
    ensures ByteLines(a + [NEWLINE] + b) == ByteLines(a) + ByteLines(b)
    decreases |a|
  {
    var p := FindNewline(a);
    if p == |a| {
      ByteLinesOfLine(a, b);
    } else {
      ByteLinesSplit(a[p + 1..], b);
      assert a == a[..p] + [NEWLINE] + a[p + 1..];
      ByteLinesSplitStep(a[..p], a[p + 1..], b);
    }
  }

  lemma LastNonBlankAppend(lines: seq<seq<byte>>, line: seq<byte>)
    requires !BlankBytes(line)
    ensures LastNonBlank(lines + [line]) == Some(line)
    ensures LastNonBlank(lines + [line] + [[]]) == Some(line)
  {
    var more := lines + [line] + [[]];
    assert more[..|more| - 1] == lines + [line];
    assert BlankBytes([]);
  }

  ghost predicate EndsLines(b: seq<byte>) {
    b == [] || b[|b| - 1] == NEWLINE
  }

  /** A line with its newline, or without it. */
  function Ended(line: seq<byte>, terminated: bool): seq<byte> {
    if terminated then line + [NEWLINE] else line
  }

  lemma EndedLines(line: seq<byte>, terminated: bool)
    requires NEWLINE !in line
    ensures ByteLines(Ended(line, terminated)) == if terminated then [line] + [[]] else [line]
  {
    ByteLinesOne(line);
    if terminated {
      assert NEWLINE !in [];
      ByteLinesOne([]);
      assert line + [NEWLINE] + [] == line + [NEWLINE];
      ByteLinesOfLine(line, []);
    }
  }

  lemma LinesBehind(before: seq<byte>, rest: seq<byte>) returns (lines: seq<seq<byte>>)
    requires EndsLines(before)
    ensures ByteLines(before + rest) == lines + ByteLines(rest)
  {
    if before == [] {
      lines := [];
      assert before + rest == rest;
    } else {
      var front := before[..|before| - 1];
      lines := ByteLines(front);
      assert before == front + [NEWLINE];
      ByteLinesSplit(front, rest);
    }
  }

  /** Whether or not the last line is terminated, it is what the tail's last non-blank line is. */
  lemma LastLineOfTail(before: seq<byte>, line: seq<byte>, terminated: bool)
    requires EndsLines(before) && NEWLINE !in line && !BlankBytes(line)
    ensures LastNonBlank(ByteLines(before + Ended(line, terminated))) == Some(line)
  {
    var lines := LinesBehind(before, Ended(line, terminated));
    EndedLines(line, terminated);
    LastNonBlankAppend(lines, line);
    assert lines + ([line] + [[]]) == lines + [line] + [[]];
  }

  lemma {:induction false} NoNewlineByte(s: string)
    requires forall i :: 0 <= i < |s| ==> s[i] != '\n'
    ensures NEWLINE !in Encode(s)
  {
    if s != [] {
      NoNewlineByte(s[1..]);
      assert NEWLINE !in EncodeChar(s[0]);
    }
  }

  lemma {:induction false} TextEndsInNewline(records: seq<Record>, codec: Codec)
    ensures var t := FileText(records, codec); t == [] || t[|t| - 1] == '\n'
  {
    if records != [] {
      TextEndsInNewline(records[1..], codec);
    }
  }

  lemma EncodeEndsInNewline(t: string)
    requires t != [] && t[|t| - 1] == '\n'
    ensures Encode(t) != [] && Encode(t)[|Encode(t)| - 1] == NEWLINE
  {
    assert t == t[..|t| - 1] + ["\n"[0]];
    EncodeConcat(t[..|t| - 1], ['\n']);
    EncodeSingle('\n');
  }

  lemma {:induction false} FileTextAppend(records: seq<Record>, r: Record, codec: Codec)
    ensures FileText(records + [r], codec) == FileText(records, codec) + codec.render(r) + "\n"
  {
    if records == [] {
      assert [r][1..] == [];
      assert FileText([r], codec) == codec.render(r) + "\n" + FileText([], codec);
    } else {
      assert (records + [r])[1..] == records[1..] + [r];
      FileTextAppend(records[1..], r, codec);
    }
  }

  // What the tail read finds.

  lemma FileEndsLines(records: seq<Record>, codec: Codec)
    ensures EndsLines(Encode(FileText(records, codec)))
  {
    TextEndsInNewline(records, codec);
    if FileText(records, codec) != [] {
      EncodeEndsInNewline(FileText(records, codec));
    }
  }

  lemma TailKeepsEnd(before: seq<byte>, end: seq<byte>, window: nat) returns (seen: seq<byte>)
    requires EndsLines(before) && |end| <= window
    ensures EndsLines(seen) && Tail(before + end, window) == seen + end
  {
    if |before + end| <= window {
      seen := before;
    } else {
      seen := before[|before + end| - window..];
      assert (before + end)[|before + end| - window..] == seen + end;
    }
  }

  lemma LastEntryIsLastLine(before: seq<byte>, line: seq<byte>, terminated: bool, window: nat, codec: Codec)
    requires EndsLines(before) && NEWLINE !in line && !BlankBytes(line)
    requires |Ended(line, terminated)| <= window
    ensures LastEntryOf(before + Ended(line, terminated), window, codec) == ParseLine(line, codec)
  {
    var seen := TailKeepsEnd(before, Ended(line, terminated), window);
    LastLineOfTail(seen, line, terminated);
  }

  lemma FaithfulBytes(r: Record, codec: Codec)
    requires Faithful(r, codec)
    ensures var line := Encode(codec.render(r));
            && NEWLINE !in line && !BlankBytes(line) && line[0] == 0x7B
            && line != [] && line[|line| - 1] == 0x7D
  {
    var s := codec.render(r);
    NoNewlineByte(s);
    EncodeSingle('{');
    EncodeSingle('}');
    assert s == s[..|s| - 1] + ['}'];
    EncodeConcat(s[..|s| - 1], ['}']);
    assert EncodeChar('{') == [0x7B] && EncodeChar('}') == [0x7D];
    assert Encode(s)[0] == 0x7B;
  }

  lemma CutLineUnparseable(r: Record, m: nat, codec: Codec)
    requires Faithful(r, codec) && 0 < m < |Encode(codec.render(r))|
    ensures ParseLine(Encode(codec.render(r))[..m], codec) == Torn
    ensures ParseLine(Encode(codec.render(r))[m..], codec) == Torn
  {
    var k := CutFront(codec.render(r), m);
    var k' := CutBack(codec.render(r), m);
  }

  lemma LineBytes(line: string)
    ensures Encode(line + "\n") == Encode(line) + [NEWLINE]
  {
    EncodeConcat(line, "\n");
    EncodeSingle('\n');
  }

  lemma FileBytesAppend(records: seq<Record>, last: Record, codec: Codec)
    ensures Encode(FileText(records + [last], codec))
            == Encode(FileText(records, codec)) + Encode(codec.render(last)) + [NEWLINE]
  {
    var before, line := FileText(records, codec), codec.render(last);
    FileTextAppend(records, last, codec);
    assert before + line + "\n" == before + (line + "\n");
    EncodeConcat(before, line + "\n");
    LineBytes(line);
  }

  lemma LongLineIsTorn(before: seq<byte>, last: Record, window: nat, codec: Codec)
    requires Faithful(last, codec) && 2 <= window <= |Encode(codec.render(last))|
    ensures LastEntryOf(before + Encode(codec.render(last)) + [NEWLINE], window, codec) == Torn
  {
    var line := Encode(codec.render(last));
    var m := |line| - (window - 1);
    FaithfulBytes(last, codec);
    LastEntryIsCutLine(before, line, m, window, codec);
    CutLineUnparseable(last, m, codec);
  }

  lemma LastEntryIsCutLine(before: seq<byte>, line: seq<byte>, m: nat, window: nat, codec: Codec)
    requires NEWLINE !in line && line != [] && line[|line| - 1] == 0x7D
    requires m < |line| && window == |line| - m + 1
    ensures LastEntryOf(before + line + [NEWLINE], window, codec) == ParseLine(line[m..], codec)
  {
    var seen := line[m..];
    assert Tail(before + line + [NEWLINE], window) == [] + Ended(seen, true);
    assert seen[|seen| - 1] == 0x7D;
    LastLineOfTail([], seen, true);
  }

  lemma ShortLineIsEntry(before: seq<byte>, last: Record, window: nat, codec: Codec)
    requires EndsLines(before) && Faithful(last, codec) && |Encode(codec.render(last))| < window
    ensures LastEntryOf(before + Encode(codec.render(last)) + [NEWLINE], window, codec) == Entry(last)
  {
    FaithfulBytes(last, codec);
    LastEntryIsTerminatedLine(before, Encode(codec.render(last)), window, codec);
    LineParses(last, codec);
  }

  lemma LastEntryIsTerminatedLine(before: seq<byte>, line: seq<byte>, window: nat, codec: Codec)
    requires EndsLines(before) && NEWLINE !in line && !BlankBytes(line) && |line| < window
    ensures LastEntryOf(before + line + [NEWLINE], window, codec) == ParseLine(line, codec)
  {
    LastEntryIsLastLine(before, line, true, window, codec);
    Reassociate(before, line, [NEWLINE]);
  }

  lemma LineParses(r: Record, codec: Codec)
    requires Faithful(r, codec)
    ensures ParseLine(Encode(codec.render(r)), codec) == Entry(r)
  {
    StrictRoundTrip(codec.render(r));
  }

  /** The tail read finds exactly the last record when its line fits the window, and refuses when it
      does not. */
  lemma TailReadIsLastRecord(records: seq<Record>, last: Record, window: nat, codec: Codec)
    requires Faithful(last, codec) && window >= 2
    ensures LastEntryOf(Encode(FileText(records + [last], codec)), window, codec)
            == if |Encode(codec.render(last))| < window then Entry(last) else Torn
  {
    var before, line := Encode(FileText(records, codec)), Encode(codec.render(last));
    FileBytesAppend(records, last, codec);
    if |line| < window {
      FileEndsLines(records, codec);
      ShortLineIsEntry(before, last, window, codec);
    } else {
      LongLineIsTorn(before, last, window, codec);
    }
  }

  // The constant-time append against the full-read append.

  /** What appending would be if the whole log were read to find its last record. */
  function FullReadAppend(file: seq<byte>, body: Body, codec: Codec, key: Option<Mac>, hash: Hash)
    : Option<seq<byte>>
  {
    match ReadBytes(file, codec)
    case Err(_) => None
    case Ok(records) =>
      match NewEntry(Last(records), body, key, hash)
      case None => None
      case Some(entry) => Some(file + Encode(codec.render(entry) + "\n"))
  }

  ghost predicate FitsWindow(records: seq<Record>, window: nat, codec: Codec) {
    records != [] ==> |Encode(codec.render(records[|records| - 1]))| < window
  }

  lemma EmptyHasNoEntry(window: nat, codec: Codec)
    ensures LastEntryOf([], window, codec) == NoEntry
  {
    ByteLinesOne([]);
    assert BlankBytes([]);
    assert LastNonBlank([[]]) == LastNonBlank([[]][..0]);
  }

  lemma TailFindsLast(records: seq<Record>, window: nat, codec: Codec)
    requires AllFaithful(records, codec) && FitsWindow(records, window, codec) && window >= 2
    ensures LastEntryOf(Encode(FileText(records, codec)), window, codec)
            == match Last(records) case None => NoEntry case Some(r) => Entry(r)
  {
    if records == [] {
      EmptyHasNoEntry(window, codec);
    } else {
      var n := |records| - 1;
      assert Faithful(records[n], codec);
      assert records[..n] + [records[n]] == records;
      TailReadIsLastRecord(records[..n], records[n], window, codec);
    }
  }

  /** On a log of clean records whose last line fits the window, the constant-time append does what
      the full-read append does, and the file it leaves holds one record more. */
  lemma AppendRefinesFullRead(records: seq<Record>, body: Body, window: nat, codec: Codec,
      key: Option<Mac>, hash: Hash)
    requires AllFaithful(records, codec) && AllClean(records, codec)
    requires FitsWindow(records, window, codec) && window >= 2
    requires records != [] ==> records[|records| - 1].seqNo.Some?
    ensures var file := Encode(FileText(records, codec));
            var entry := NewEntry(Last(records), body, key, hash);
            && AppendTo(file, body, window, codec, key, hash) == FullReadAppend(file, body, codec, key, hash)
            && entry.Some?
            && AppendTo(file, body, window, codec, key, hash)
               == Some(Encode(FileText(records + [entry.value], codec)))
  {
    var entry := NewEntry(Last(records), body, key, hash).value;
    TailFindsLast(records, window, codec);
    ReadsBackIffClean(records, codec);
    FileTextAppend(records, entry, codec);
    assert FileText(records, codec) + codec.render(entry) + "\n"
        == FileText(records, codec) + (codec.render(entry) + "\n");
    EncodeConcat(FileText(records, codec), codec.render(entry) + "\n");
  }

  // Whole lives of a log.

  /** The file after appending `bodies` one after the other to an empty log; None once refused. */
  function Life(bodies: seq<Body>, window: nat, codec: Codec, key: Option<Mac>, hash: Hash): Option<seq<byte>> {
    if bodies == [] then Some([]) else
    match Life(bodies[..|bodies| - 1], window, codec, key, hash)
    case None => None
    case Some(file) => AppendTo(file, bodies[|bodies| - 1], window, codec, key, hash)
  }

  ghost predicate OrderlyRecord(r: Record, window: nat, codec: Codec) {
    Faithful(r, codec) && Clean(codec.render(r)) && |Encode(codec.render(r))| < window
  }

  ghost predicate Orderly(records: seq<Record>, window: nat, codec: Codec) {
    forall i :: 0 <= i < |records| ==> OrderlyRecord(records[i], window, codec)
  }

  lemma OrderlyParts(records: seq<Record>, window: nat, codec: Codec)
    requires Orderly(records, window, codec)
    ensures AllFaithful(records, codec) && AllClean(records, codec) && FitsWindow(records, window, codec)
    ensures records != [] ==> Orderly(records[..|records| - 1], window, codec)
  {
    forall i | 0 <= i < |records|
      ensures Faithful(records[i], codec) && Clean(codec.render(records[i]))
    {
      assert OrderlyRecord(records[i], window, codec);
    }
    if records != [] {
      assert OrderlyRecord(records[|records| - 1], window, codec);
      var front := records[..|records| - 1];
      forall i | 0 <= i < |front|
        ensures OrderlyRecord(front[i], window, codec)
      {
        assert OrderlyRecord(records[i], window, codec);
      }
    }
  }

  lemma AppendedStep(bodies: seq<Body>, key: Option<Mac>, hash: Hash)
    requires bodies != []
    ensures var front := Appended(bodies[..|bodies| - 1], key, hash);
            var entry := NewEntry(Last(front), bodies[|bodies| - 1], key, hash);
            entry.Some? && Appended(bodies, key, hash) == front + [entry.value]
  {
  }

  lemma OrderlyButLast(records: seq<Record>, last: Record, window: nat, codec: Codec)
    requires Orderly(records + [last], window, codec)
    ensures Orderly(records, window, codec)
  {
    OrderlyParts(records + [last], window, codec);
    assert (records + [last])[..|records|] == records;
  }

  lemma {:induction false} LifeIsFile(bodies: seq<Body>, window: nat, codec: Codec,
      key: Option<Mac>, hash: Hash)
    requires window >= 2 && Orderly(Appended(bodies, key, hash), window, codec)
    ensures Life(bodies, window, codec, key, hash)
            == Some(Encode(FileText(Appended(bodies, key, hash), codec)))
    decreases |bodies|
  {
    if bodies != [] {
      var n := |bodies| - 1;
      var front := Appended(bodies[..n], key, hash);
      AppendedStep(bodies, key, hash);
      OrderlyButLast(front, NewEntry(Last(front), bodies[n], key, hash).value, window, codec);
      LifeIsFile(bodies[..n], window, codec, key, hash);
      OrderlyParts(front, window, codec);
      AppendRefinesFullRead(front, bodies[n], window, codec, key, hash);
    }
  }

  /** After any number of appends the file reads back as the chain appended: one record for each body, in
      order, stating that body. That chain verifies, with a key and without. */
  lemma LifeReadsBackAndVerifies(bodies: seq<Body>, window: nat, codec: Codec,
      key: Option<Mac>, hash: Hash)
    requires SignsSomething(key) && window >= 2
    requires Orderly(Appended(bodies, key, hash), window, codec)
    ensures var chain := Appended(bodies, key, hash);
            && Life(bodies, window, codec, key, hash) == Some(Encode(FileText(chain, codec)))
            && ReadBytes(Encode(FileText(chain, codec)), codec) == Ok(chain)
            && Verifies(chain, key, hash)
            && |chain| == |bodies| && forall i :: 0 <= i < |bodies| ==> States(chain[i], bodies[i])
  {
    var chain := Appended(bodies, key, hash);
    forall i | 0 <= i < |bodies|
      ensures States(chain[i], bodies[i])
    {
      AppendedStates(bodies, key, hash, i);
    }
    LifeIsFile(bodies, window, codec, key, hash);
    AppendedVerifies(bodies, key, hash);
    OrderlyParts(chain, window, codec);
    ReadsBackIffClean(chain, codec);
  }

  // Torn and unterminated tails.

  lemma TornTailRefused(before: seq<byte>, r: Record, m: nat, window: nat, codec: Codec)
    requires EndsLines(before) && Faithful(r, codec)
    requires 0 < m < |Encode(codec.render(r))| && m <= window
    ensures LastEntryOf(before + Encode(codec.render(r))[..m], window, codec) == Torn
  {
    var torn := Encode(codec.render(r))[..m];
    FaithfulBytes(r, codec);
    assert torn[0] == 0x7B;
    LastEntryIsLastLine(before, torn, false, window, codec);
    CutLineUnparseable(r, m, codec);
  }

  lemma TornTailReported(records: seq<Record>, r: Record, m: nat, codec: Codec)
    requires AllFaithful(records, codec) && AllClean(records, codec) && Faithful(r, codec)
    requires 0 < m < |Encode(codec.render(r))|
    ensures var read := ReadBytes(Encode(FileText(records, codec)) + Encode(codec.render(r))[..m], codec);
            read == Err(Undecodable) || read == Err(TornAfter(|records|))
  {
    var torn := Encode(codec.render(r))[..m];
    var k := CutFront(codec.render(r), m);
    StrictConcat(FileText(records, codec), torn);
    if DecodeStrict(torn).Some? {
      ReadLinesOfFile([], records, codec.render(r)[..k], codec);
      assert [] + records == records;
      FirstPieceUnparseable(records, r, k, codec);
    }
  }

  /** What the tail read makes of a piece of a line that fills its whole window. */
  function SeenIn(piece: seq<byte>, codec: Codec): LastEntry {
    if BlankBytes(piece) then NoEntry else ParseLine(piece, codec)
  }

  /** What the tail read makes of a torn line. */
  function SeenOf(torn: seq<byte>, window: nat, codec: Codec): LastEntry {
    if |torn| <= window then Torn else SeenIn(torn[|torn| - window..], codec)
  }

  lemma OneLine(piece: seq<byte>)
    requires NEWLINE !in piece
    ensures LastNonBlank(ByteLines(piece)) == if BlankBytes(piece) then None else Some(piece)
  {
    ByteLinesOne(piece);
    assert [piece][..0] == [];
  }

  lemma LongTornTail(before: seq<byte>, torn: seq<byte>, window: nat, codec: Codec)
    requires NEWLINE !in torn && window < |torn|
    ensures LastEntryOf(before + torn, window, codec) == SeenOf(torn, window, codec)
  {
    var piece := torn[|torn| - window..];
    assert Tail(before + torn, window) == piece;
    OneLine(piece);
  }

  lemma TornLastEntry(before: seq<byte>, r: Record, m: nat, window: nat, codec: Codec)
    requires EndsLines(before) && Faithful(r, codec) && 0 < m < |Encode(codec.render(r))|
    ensures var torn := Encode(codec.render(r))[..m];
            LastEntryOf(before + torn, window, codec) == SeenOf(torn, window, codec)
  {
    if m <= window {
      TornTailRefused(before, r, m, window, codec);
    } else {
      FaithfulBytes(r, codec);
      CutHasNoNewline(Encode(codec.render(r)), m);
      LongTornTail(before, Encode(codec.render(r))[..m], window, codec);
    }
  }

  lemma CutHasNoNewline(line: seq<byte>, m: nat)
    requires NEWLINE !in line && m <= |line|
    ensures NEWLINE !in line[..m]
  {
  }

  /** The first line of a new chain. */
  function StartingLine(body: Body, codec: Codec, key: Option<Mac>, hash: Hash): seq<byte> {
    Encode(codec.render(NewEntry(None, body, key, hash).value) + "\n")
  }

  /** An append can follow this. */
  predicate Followable(last: LastEntry) {
    last.NoEntry? || (last.Entry? && last.record.seqNo.Some?)
  }

  lemma AppendFollows(file: seq<byte>, body: Body, window: nat, codec: Codec, key: Option<Mac>, hash: Hash)
    ensures AppendTo(file, body, window, codec, key, hash).Some? <==>
              Followable(LastEntryOf(file, window, codec))
    ensures LastEntryOf(file, window, codec).NoEntry? ==>
              AppendTo(file, body, window, codec, key, hash)
              == Some(file + StartingLine(body, codec, key, hash))
  {
  }

  /** What is left of a torn line passes for a whole tail: it overfills the window, and the window
      holds nothing but blanks or something that parses as a numbered record. */
  predicate PassesForWhole(torn: seq<byte>, window: nat, codec: Codec) {
    Followable(SeenOf(torn, window, codec))
  }

  /** A line torn mid-write, even inside a character, is always reported by the full read, which
      vouches for every record before it. The next append refuses it exactly when what is left of it
      cannot pass for a whole tail, which it cannot as long as it fits the window; behind a window
      of blanks the append starts a new chain in the middle of the file. */
  lemma TornLineIsRefused(records: seq<Record>, r: Record, m: nat, body: Body, window: nat, codec: Codec,
      key: Option<Mac>, hash: Hash)
    requires AllFaithful(records, codec) && AllClean(records, codec) && Faithful(r, codec)
    requires 0 < m < |Encode(codec.render(r))|
    ensures var torn := Encode(codec.render(r))[..m];
            var file := Encode(FileText(records, codec)) + torn;
            && (ReadBytes(file, codec) == Err(Undecodable)
                || ReadBytes(file, codec) == Err(TornAfter(|records|)))
            && (AppendTo(file, body, window, codec, key, hash) == None
                <==> !PassesForWhole(torn, window, codec))
            && (m > window && BlankBytes(torn[m - window..]) ==>
                  AppendTo(file, body, window, codec, key, hash)
                  == Some(file + StartingLine(body, codec, key, hash)))
  {
    TornTailReported(records, r, m, codec);
    FileEndsLines(records, codec);
    AppendToTorn(Encode(FileText(records, codec)), r, m, body, window, codec, key, hash);
  }

  lemma AppendFollowsTorn(file: seq<byte>, torn: seq<byte>, body: Body, window: nat, codec: Codec,
      key: Option<Mac>, hash: Hash)
    requires LastEntryOf(file, window, codec) == SeenOf(torn, window, codec)
    ensures AppendTo(file, body, window, codec, key, hash) == None <==> !PassesForWhole(torn, window, codec)
    ensures |torn| > window && BlankBytes(torn[|torn| - window..]) ==>
              AppendTo(file, body, window, codec, key, hash)
              == Some(file + StartingLine(body, codec, key, hash))
  {
    AppendFollows(file, body, window, codec, key, hash);
  }

  lemma AppendToTorn(before: seq<byte>, r: Record, m: nat, body: Body, window: nat, codec: Codec,
      key: Option<Mac>, hash: Hash)
    requires EndsLines(before) && Faithful(r, codec) && 0 < m < |Encode(codec.render(r))|
    ensures var torn := Encode(codec.render(r))[..m];
            && (AppendTo(before + torn, body, window, codec, key, hash) == None
                <==> !PassesForWhole(torn, window, codec))
            && (m > window && BlankBytes(torn[m - window..]) ==>
                  AppendTo(before + torn, body, window, codec, key, hash)
                  == Some(before + torn + StartingLine(body, codec, key, hash)))
  {
    TornLastEntry(before, r, m, window, codec);
    AppendFollowsTorn(before + Encode(codec.render(r))[..m], Encode(codec.render(r))[..m], body, window,
      codec, key, hash);
  }

  lemma FirstPieceUnparseable(records: seq<Record>, r: Record, k: nat, codec: Codec)
    requires Faithful(r, codec) && 0 < k < |codec.render(r)|
    ensures ReadLines(Pieces(codec.render(r)[..k]), records, codec.parse) == Err(TornAfter(|records|))
  {
    var part := codec.render(r)[..k];
    var p := FindBreak(part);
    assert !IsBreak(part[0]);
    assert p > 0;
    var first := Pieces(part)[0];
    assert first == codec.render(r)[..p];
    assert !IsSpace(first[0]);
  }

  /** The newline is what the append relies on. Behind a terminated last line it leaves a log one
      record longer; a last line that is whole but lost only its newline is accepted just the same,
      and then the full read refuses the file. */
  lemma AppendNeedsTheNewline(records: seq<Record>, r: Record, entry: Record, body: Body, window: nat,
      codec: Codec, key: Option<Mac>, hash: Hash)
    requires Orderly(records + [r], window, codec) && window >= 2 && r.seqNo.Some?
    requires NewEntry(Some(r), body, key, hash) == Some(entry) && OrderlyRecord(entry, window, codec)
    requires codec.parse(codec.render(r) + codec.render(entry)) == None
    ensures var whole := AppendTo(Encode(FileText(records + [r], codec)), body, window, codec, key, hash);
            whole.Some? && ReadBytes(whole.value, codec) == Ok(records + [r] + [entry])
    ensures var cut := AppendTo(Encode(FileText(records, codec) + codec.render(r)), body, window, codec, key, hash);
            cut.Some? && ReadBytes(cut.value, codec).Err?
  {
    TerminatedAppend(records + [r], entry, body, window, codec, key, hash);
    OrderlyFront(records, r, window, codec);
    UnterminatedAppend(records, r, entry, window, codec);
  }

  lemma OrderlyFront(records: seq<Record>, r: Record, window: nat, codec: Codec)
    requires Orderly(records + [r], window, codec)
    ensures AllFaithful(records, codec) && AllClean(records, codec) && OrderlyRecord(r, window, codec)
  {
    OrderlyButLast(records, r, window, codec);
    OrderlyParts(records, window, codec);
    assert OrderlyRecord((records + [r])[|records|], window, codec);
  }

  lemma TerminatedAppend(records: seq<Record>, entry: Record, body: Body, window: nat, codec: Codec,
      key: Option<Mac>, hash: Hash)
    requires Orderly(records, window, codec) && OrderlyRecord(entry, window, codec) && window >= 2
    requires NewEntry(Last(records), body, key, hash) == Some(entry)
    requires records != [] ==> records[|records| - 1].seqNo.Some?
    ensures var after := AppendTo(Encode(FileText(records, codec)), body, window, codec, key, hash);
            after.Some? && ReadBytes(after.value, codec) == Ok(records + [entry])
  {
    OrderlyParts(records, window, codec);
    AppendRefinesFullRead(records, body, window, codec, key, hash);
    OrderlyExtend(records, entry, window, codec);
    OrderlyParts(records + [entry], window, codec);
    ReadsBackIffClean(records + [entry], codec);
  }

  /** One append to a log of clean records adds one record, which states this body. */
  lemma AppendStatesBody(records: seq<Record>, body: Body, window: nat, codec: Codec, key: Option<Mac>,
      hash: Hash) returns (entry: Record)
    requires Orderly(records, window, codec) && window >= 2
    requires records != [] ==> records[|records| - 1].seqNo.Some?
    requires var added := NewEntry(Last(records), body, key, hash);
             added.Some? ==> OrderlyRecord(added.value, window, codec)
    ensures States(entry, body)
    ensures var after := AppendTo(Encode(FileText(records, codec)), body, window, codec, key, hash);
            after.Some? && ReadBytes(after.value, codec) == Ok(records + [entry])
  {
    NewEntryStates(Last(records), body, key, hash);
    entry := NewEntry(Last(records), body, key, hash).value;
    TerminatedAppend(records, entry, body, window, codec, key, hash);
  }

  lemma OrderlyExtend(records: seq<Record>, entry: Record, window: nat, codec: Codec)
    requires Orderly(records, window, codec) && OrderlyRecord(entry, window, codec)
    ensures Orderly(records + [entry], window, codec)
  {
    var all := records + [entry];
    forall i | 0 <= i < |all|
      ensures OrderlyRecord(all[i], window, codec)
    {
      if i < |records| {
        assert OrderlyRecord(records[i], window, codec);
      }
    }
  }

  lemma UnterminatedTail(before: string, r: Record, window: nat, codec: Codec)
    requires EndsLines(Encode(before)) && Faithful(r, codec) && |Encode(codec.render(r))| < window
    ensures LastEntryOf(Encode(before + codec.render(r)), window, codec) == Entry(r)
  {
    var line := Encode(codec.render(r));
    EncodeConcat(before, codec.render(r));
    FaithfulBytes(r, codec);
    LastEntryIsLastLine(Encode(before), line, false, window, codec);
    LineParses(r, codec);
  }

  lemma JoinedLineUnreadable(records: seq<Record>, joined: string, codec: Codec)
    requires AllFaithful(records, codec) && AllClean(records, codec)
    requires joined != [] && joined[0] == '{' && Clean(joined) && codec.parse(joined) == None
    ensures ReadBytes(Encode(FileText(records, codec) + (joined + "\n")), codec).Err?
  {
    var more := joined + "\n";
    StrictRoundTrip(FileText(records, codec) + more);
    ReadLinesOfFile([], records, more, codec);
    assert joined + "\n" + [] == more;
    PiecesOfLine(joined, []);
    assert !IsSpace(joined[0]);
  }

  lemma CleanJoin(a: string, b: string)
    requires a != [] && Clean(a) && Clean(b)
    ensures Clean(a + b) && a + b != [] && (a + b)[0] == a[0]
  {
  }

  lemma JoinedBytes(before: string, line: string, next: string)
    ensures Encode(before + line) + Encode(next + "\n") == Encode(before + (line + next + "\n"))
  {
    EncodeConcat(before + line, next + "\n");
    assert before + line + (next + "\n") == before + (line + next + "\n");
  }

  lemma UnterminatedAppend(records: seq<Record>, r: Record, entry: Record, window: nat, codec: Codec)
    requires AllFaithful(records, codec) && AllClean(records, codec)
    requires OrderlyRecord(r, window, codec) && OrderlyRecord(entry, window, codec)
    requires codec.parse(codec.render(r) + codec.render(entry)) == None
    ensures var file := Encode(FileText(records, codec) + codec.render(r));
            && LastEntryOf(file, window, codec) == Entry(r)
            && ReadBytes(file + Encode(codec.render(entry) + "\n"), codec).Err?
  {
    var before, line, next := FileText(records, codec), codec.render(r), codec.render(entry);
    FileEndsLines(records, codec);
    UnterminatedTail(before, r, window, codec);
    CleanJoin(line, next);
    JoinedLineUnreadable(records, line + next, codec);
    JoinedBytes(before, line, next);
  }
}
