/** One publication: archive chunks, projected lines, greedy request batches, and the
    escaping of quoted fields. Text is a sequence of characters that stand for single bytes. */
module Publication {
  import opened Common
  import opened Base64

  type Text = seq<char>

  const CHUNK_BYTES: nat := 12_000
  const LINE_LIMIT: nat := 65_536
  const BATCH_LIMIT: nat := 262_144
  const MAX_BATCHES: nat := 256
  const MAX_ARCHIVE_BYTES: nat := 33_554_432

  datatype SourceStatus = Collected | Unsupported | Unrecognized | Failed

  /** The projected fields of one client; `nameJson` is its name as JSON text. */
  datatype Client = Client(counters: Text, nameJson: Text)

  /** A collected hour. `archive` is its serialized form; `tags` carry the collector identity and
      the digest of the archive; `clients` and `summary` are the projections of its reports, and
      `activityLegible` and `wanLegible` say whether its reports can be read for them. */
  datatype Snapshot = Snapshot(
    start: nat, end: nat,
    activity: SourceStatus, graph: SourceStatus, wan: SourceStatus, activityLegible: bool, wanLegible: bool,
    archive: seq<Byte>, tags: Text, clients: seq<Client>, summary: Text)

  predicate IsCollected(s: Snapshot) {
    s.activity == Collected && s.graph == Collected && s.wan == Collected
  }

  /** A collected activity or WAN report has to be present and readable. */
  predicate Illegible(s: Snapshot) {
    (s.activity == Collected && !s.activityLegible) || (s.wan == Collected && !s.wanLegible)
  }

  datatype BuildError = ArchiveTooLarge | ReportUnreadable | LineTooLong | TooManyBatches

  /*** Quoted fields ***/

  function Replace(value: Text, c: char, with: Text): Text {
    if value == [] then [] else (if value[0] == c then with else [value[0]]) + Replace(value[1..], c, with)
  }

  /** A string field: backslashes first, then quotes, then the enclosing quotes. */
  function Quoted(value: Text): Text {
    "\"" + Replace(Replace(value, '\\', "\\\\"), '"', "\\\"") + "\""
  }

  /** Reads the inside of a string field up to its closing quote; the result is the value and the
      text that follows the quote. */
  function Scan(text: Text): Option<(Text, Text)> {
    if text == [] then None
    else if text[0] == '"' then Some(([], text[1..]))
    else if text[0] != '\\' then Prepend(text[0], Scan(text[1..]))
    else if |text| > 1 && (text[1] == '\\' || text[1] == '"') then Prepend(text[1], Scan(text[2..]))
    else None
  }

  function Prepend(c: char, r: Option<(Text, Text)>): Option<(Text, Text)> {
    match r
    case None => None
    case Some((value, rest)) => Some(([c] + value, rest))
  }

  lemma {:induction false} ReplaceConcat(a: Text, b: Text, c: char, with: Text)
    ensures Replace(a + b, c, with) == Replace(a, c, with) + Replace(b, c, with)
  {
    if a == [] {
      assert a + b == b;
    } else {
      assert (a + b)[1..] == a[1..] + b;
      ReplaceConcat(a[1..], b, c, with);
    }
  }

  /** The escaped form of one character. */
  function EscapedChar(c: char): Text {
    if c == '\\' then "\\\\" else if c == '"' then "\\\"" else [c]
  }

  function Escaped(value: Text): Text {
    Replace(Replace(value, '\\', "\\\\"), '"', "\\\"")
  }

  lemma EscapedStep(value: Text)
    requires value != []
    ensures Escaped(value) == EscapedChar(value[0]) + Escaped(value[1..])
  {
    var c := value[0];
    var first := if c == '\\' then "\\\\" else [c];
    ReplaceConcat(first, Replace(value[1..], '\\', "\\\\"), '"', "\\\"");
    if c == '\\' {
      assert first[1..] == ['\\'] && first[1..][1..] == [];
      assert Replace(first, '"', "\\\"") == ['\\'] + Replace(['\\'], '"', "\\\"");
    } else {
      assert first[1..] == [];
    }
  }

  /** A quoted field reads back as the original value, whatever follows it. */
  lemma {:induction false} ScanEscaped(value: Text, rest: Text)
    ensures Scan(Escaped(value) + "\"" + rest) == Some((value, rest))
  {
    var text := Escaped(value) + "\"" + rest;
    if value == [] {
      assert text[1..] == rest;
    } else {
      EscapedStep(value);
      ScanEscaped(value[1..], rest);
      var tail := Escaped(value[1..]) + "\"" + rest;
      var head := EscapedChar(value[0]);
      assert text == head + tail;
      assert text[|head|..] == tail;
      assert [value[0]] + value[1..] == value;
    }
  }

  lemma QuotedRoundTrip(value: Text, rest: Text)
    ensures (Quoted(value) + rest)[0] == '"'
    ensures Scan((Quoted(value) + rest)[1..]) == Some((value, rest))
  {
    ScanEscaped(value, rest);
    assert (Quoted(value) + rest)[1..] == Escaped(value) + "\"" + rest;
  }

  /*** Lines ***/

  function Decimal(n: nat): Text {
    if n < 10 then ['0' + n as char] else Decimal(n / 10) + ['0' + (n % 10) as char]
  }

  function Chunks(bytes: seq<Byte>): seq<seq<Byte>> {
    if bytes == [] then []
    else if |bytes| <= CHUNK_BYTES then [bytes]
    else [bytes[..CHUNK_BYTES]] + Chunks(bytes[CHUNK_BYTES..])
  }

  function ArchiveLine(s: Snapshot, index: nat, chunk: seq<Byte>): Text {
    "unifi_archive," + s.tags + ",part=" + Decimal(index) + " data=" + "\"" + Encode(chunk) + "\""
    + (" " + Decimal(s.start) + "\n")
  }

  /** A client name too long for one line is left to the archive. */
  function ClientLine(s: Snapshot, client: Client): Text {
    var prefix := "unifi_client," + s.tags + "," + client.counters + ",";
    var line := prefix + "name_json=" + Quoted(client.nameJson) + " " + Decimal(s.start) + "\n";
    if |line| <= LINE_LIMIT then line else prefix + "name_in_archive=true " + Decimal(s.start) + "\n"
  }

  function IntervalLine(s: Snapshot): Text {
    "unifi_interval," + s.tags + " " + s.summary + " " + Decimal(s.start) + "\n"
  }

  function ArchiveLines(s: Snapshot, index: nat, chunks: seq<seq<Byte>>): seq<Text>
    decreases |chunks|
  {
    if chunks == [] then [] else [ArchiveLine(s, index, chunks[0])] + ArchiveLines(s, index + 1, chunks[1..])
  }

  function ClientLines(s: Snapshot, clients: seq<Client>): seq<Text> {
    if clients == [] then [] else [ClientLine(s, clients[0])] + ClientLines(s, clients[1..])
  }

  /** Every line of the publication of a snapshot, in the order in which it is written. */
  function Lines(s: Snapshot): seq<Text> {
    ArchiveLines(s, 0, Chunks(s.archive)) + ClientLines(s, s.clients) + [IntervalLine(s)]
  }

  /*** Batches ***/

  predicate Fits(lines: seq<Text>) {
    |Flatten(lines)| <= BATCH_LIMIT
  }

  predicate LinesOk(lines: seq<Text>) {
    forall i :: 0 <= i < |lines| ==> 0 < |lines[i]| <= LINE_LIMIT
  }

  predicate NoneEmpty(lines: seq<Text>) {
    forall i :: 0 <= i < |lines| ==> lines[i] != []
  }

  /** How many leading lines one request holds: as many as fit after the first `n`. */
  function Cut(lines: seq<Text>, n: nat): (k: nat)
    requires n <= |lines| && Fits(lines[..n])
    ensures n <= k <= |lines| && Fits(lines[..k])
    ensures k < |lines| ==> !Fits(lines[..k + 1])
    decreases |lines| - n
  {
    if n < |lines| && Fits(lines[..n + 1]) then Cut(lines, n + 1) else n
  }

  lemma FirstLineFits(lines: seq<Text>)
    requires LinesOk(lines) && lines != []
    ensures Fits(lines[..1])
  {
    assert Flatten(lines[..1]) == lines[0] + Flatten([]);
  }

  /** The greedy grouping of lines into requests. */
  function Groups(lines: seq<Text>): seq<seq<Text>>
    requires LinesOk(lines)
  {
    if lines == [] then []
    else
      FirstLineFits(lines);
      var k := Cut(lines, 1);
      [lines[..k]] + Groups(lines[k..])
  }

  function Texts(groups: seq<seq<Text>>): seq<Text> {
    seq(|groups|, i requires 0 <= i < |groups| => Flatten(groups[i]))
  }

  lemma PrefixFits(lines: seq<Text>, k: nat, n: nat)
    requires k <= n <= |lines| && Fits(lines[..n])
    ensures Fits(lines[..k])
  {
    assert lines[..n] == lines[..k] + lines[k..n];
    FlattenConcat(lines[..k], lines[k..n]);
  }

  /** A cut is the longest prefix that fits. */
  lemma CutIsLongest(lines: seq<Text>, n: nat, k: nat)
    requires n <= |lines| && Fits(lines[..n]) && k <= |lines| && Fits(lines[..k])
    ensures k <= Cut(lines, n)
  {
    var cut := Cut(lines, n);
    if cut < k {
      PrefixFits(lines, cut + 1, k);
      assert false;
    }
  }

  /** A group that is followed by another line is more than 192 KiB. */
  lemma CutSize(lines: seq<Text>)
    requires LinesOk(lines) && lines != [] && Fits(lines[..1])
    ensures 0 < |Flatten(lines[..Cut(lines, 1)])| <= BATCH_LIMIT
    ensures Cut(lines, 1) < |lines| ==> |Flatten(lines[..Cut(lines, 1)])| > BATCH_LIMIT - LINE_LIMIT
  {
    var k := Cut(lines, 1);
    assert lines[..k] == [lines[0]] + lines[1..k];
    if k < |lines| {
      assert lines[..k + 1] == lines[..k] + [lines[k]];
      FlattenSnoc(lines[..k], lines[k]);
    }
  }

  ghost predicate GroupSizes(groups: seq<seq<Text>>) {
    forall i :: 0 <= i < |groups| ==>
      && 0 < |Flatten(groups[i])| <= 262_144
      && (i < |groups| - 1 ==> |Flatten(groups[i])| > 196_608)
  }

  /** No request is empty or above the limit, and every request but the last is more than 192 KiB. */
  lemma {:induction false} GroupsSized(lines: seq<Text>)
    requires LinesOk(lines)
    ensures GroupSizes(Groups(lines))
    decreases |lines|
  {
    if lines != [] {
      FirstLineFits(lines);
      var k := Cut(lines, 1);
      GroupsSized(lines[k..]);
      CutSize(lines);
    }
  }

  /** Nothing is lost or reordered. */
  lemma {:induction false} GroupsKeepLines(lines: seq<Text>)
    requires LinesOk(lines)
    ensures Flatten(Groups(lines)) == lines
    decreases |lines|
  {
    if lines != [] {
      FirstLineFits(lines);
      var k := Cut(lines, 1);
      GroupsKeepLines(lines[k..]);
      assert lines == lines[..k] + lines[k..];
    }
  }

  lemma {:induction false} TextsFlatten(groups: seq<seq<Text>>)
    ensures Flatten(Texts(groups)) == Flatten(Flatten(groups))
  {
    if groups != [] {
      TextsFlatten(groups[1..]);
      assert Texts(groups) == [Flatten(groups[0])] + Texts(groups[1..]);
      FlattenConcat(groups[0], Flatten(groups[1..]));
    }
  }

  /** How many requests the lines from position `i` on need. */
  function Requests(lines: seq<Text>, i: nat): nat
    requires LinesOk(lines) && i <= |lines|
  {
    |Groups(lines[i..])|
  }

  /** Where the request that starts at position `i` ends. */
  function NextCut(lines: seq<Text>, i: nat): (k: nat)
    requires LinesOk(lines) && i < |lines|
    ensures i < k <= |lines|
  {
    FirstLineFits(lines[i..]);
    i + Cut(lines[i..], 1)
  }

  lemma DropTwice<T>(s: seq<T>, a: nat, b: nat)
    requires a + b <= |s|
    ensures s[a..][b..] == s[a + b..]
  {
  }

  lemma DropTake<T>(s: seq<T>, a: nat, b: nat)
    requires a + b <= |s|
    ensures s[a..][..b] == s[a..a + b]
  {
  }

  lemma RequestsUnfold(lines: seq<Text>, i: nat)
    requires LinesOk(lines) && i < |lines|
    ensures Requests(lines, i) == 1 + Requests(lines, NextCut(lines, i))
  {
    FirstLineFits(lines[i..]);
    DropTwice(lines, i, Cut(lines[i..], 1));
  }

  lemma MiddleFits(lines: seq<Text>, i: nat, j: nat, k: nat)
    requires i <= j <= k <= |lines| && Fits(lines[i..k])
    ensures Fits(lines[j..k])
  {
    assert lines[i..k] == lines[i..j] + lines[j..k];
    FlattenConcat(lines[i..j], lines[j..k]);
  }

  lemma CutFits(lines: seq<Text>, i: nat)
    requires LinesOk(lines) && i < |lines|
    ensures Fits(lines[i..NextCut(lines, i)])
  {
    FirstLineFits(lines[i..]);
    DropTake(lines, i, Cut(lines[i..], 1));
  }

  lemma FitsWithinCut(lines: seq<Text>, j: nat, k: nat)
    requires LinesOk(lines) && j < k <= |lines| && Fits(lines[j..k])
    ensures k <= NextCut(lines, j)
  {
    FirstLineFits(lines[j..]);
    DropTake(lines, j, k - j);
    CutIsLongest(lines[j..], 1, k - j);
  }

  /** A request that starts later ends no earlier. */
  lemma CutMonotone(lines: seq<Text>, i: nat, j: nat)
    requires LinesOk(lines) && i < |lines| && i <= j < NextCut(lines, i)
    ensures j < |lines| && NextCut(lines, i) <= NextCut(lines, j)
  {
    CutFits(lines, i);
    MiddleFits(lines, i, j, NextCut(lines, i));
    FitsWithinCut(lines, j, NextCut(lines, i));
  }

  /** Leaving out leading lines never needs more requests. */
  lemma {:induction false} RequestsMonotone(lines: seq<Text>, i: nat, j: nat)
    requires LinesOk(lines) && i <= j <= |lines|
    ensures Requests(lines, j) <= Requests(lines, i)
    decreases |lines| - i
  {
    if i < j {
      RequestsUnfold(lines, i);
      var k := NextCut(lines, i);
      if k <= j {
        RequestsMonotone(lines, k, j);
      } else {
        CutMonotone(lines, i, j);
        RequestsUnfold(lines, j);
        RequestsMonotone(lines, k, NextCut(lines, j));
      }
    }
  }

  lemma GroupsMonotone(lines: seq<Text>, drop: nat)
    requires LinesOk(lines) && drop <= |lines|
    ensures |Groups(lines[drop..])| <= |Groups(lines)|
  {
    RequestsMonotone(lines, 0, drop);
    assert lines[0..] == lines;
  }

  /** The greedy grouping is optimal: any way of splitting the same lines, in order, into
      requests within the limit needs at least as many requests. */
  lemma {:induction false} GroupsMinimal(lines: seq<Text>, other: seq<seq<Text>>)
    requires LinesOk(lines)
    requires Flatten(other) == lines && forall i :: 0 <= i < |other| ==> |Flatten(other[i])| <= 262_144
    ensures |Groups(lines)| <= |other|
    decreases |other|
  {
    if lines != [] {
      var first := other[0];
      var rest := Flatten(other[1..]);
      assert lines == first + rest;
      FirstLineFits(lines);
      var cut := Cut(lines, 1);
      assert lines[..|first|] == first;
      CutIsLongest(lines, 1, |first|);
      assert lines[|first|..] == rest;
      GroupsMinimal(rest, other[1..]);
      assert rest[cut - |first|..] == lines[cut..];
      GroupsMonotone(rest, cut - |first|);
    }
  }

  /** The number of requests is bounded by the total size. */
  lemma {:induction false} GroupsBound(lines: seq<Text>)
    requires LinesOk(lines)
    ensures |Groups(lines)| > 0 ==> (|Groups(lines)| - 1) * (BATCH_LIMIT - LINE_LIMIT) < |Flatten(lines)|
    decreases |lines|
  {
    if lines != [] {
      FirstLineFits(lines);
      var k := Cut(lines, 1);
      GroupsBound(lines[k..]);
      CutSize(lines);
      assert lines == lines[..k] + lines[k..];
      FlattenConcat(lines[..k], lines[k..]);
    }
  }

  /*** Building ***/

  function BuildBatches(s: Snapshot): Result<seq<Text>, BuildError> {
    if |s.archive| > MAX_ARCHIVE_BYTES then Err(ArchiveTooLarge)
    else if Illegible(s) then Err(ReportUnreadable)
    else if !LinesOk(Lines(s)) then Err(LineTooLong)
    else if |Groups(Lines(s))| > MAX_BATCHES then Err(TooManyBatches)
    else Ok(Texts(Groups(Lines(s))))
  }

  predicate Buildable(s: Snapshot) {
    && |s.archive| <= MAX_ARCHIVE_BYTES && !Illegible(s)
    && LinesOk(Lines(s))
    && |Groups(Lines(s))| <= MAX_BATCHES
  }

  /** Groups of a batch that is still open: it closes when the next line does not fit. */
  lemma GroupsOpen(open: seq<Text>, rest: seq<Text>)
    requires LinesOk(open + rest) && open != [] && Fits(open)
    requires rest == [] || !Fits(open + [rest[0]])
    ensures LinesOk(rest)
    ensures Groups(open + rest) == [open] + Groups(rest)
  {
    var lines := open + rest;
    assert forall i :: 0 <= i < |rest| ==> rest[i] == lines[|open| + i];
    FirstLineFits(lines);
    assert lines[..|open|] == open;
    CutIsLongest(lines, 1, |open|);
    if rest != [] {
      assert lines[..|open| + 1] == open + [rest[0]];
      var k := Cut(lines, 1);
      if k > |open| { PrefixFits(lines, |open| + 1, k); }
    }
    assert lines[|open|..] == rest;
  }

  /** The state of the batching loop: `done` holds the closed batches, `open` the lines of the open
      one, and `rest` the lines still to come. */
  ghost predicate Packed(lines: seq<Text>, done: seq<seq<Text>>, open: seq<Text>, rest: seq<Text>)
    requires LinesOk(lines)
  {
    && LinesOk(open + rest)
    && Fits(open)
    && Groups(lines) == done + Groups(open + rest)
  }

  lemma PackedAdd(lines: seq<Text>, done: seq<seq<Text>>, open: seq<Text>, rest: seq<Text>)
    requires LinesOk(lines) && Packed(lines, done, open, rest) && rest != [] && Fits(open + [rest[0]])
    ensures Packed(lines, done, open + [rest[0]], rest[1..])
  {
    assert open + rest == (open + [rest[0]]) + rest[1..];
  }

  lemma PackedClose(lines: seq<Text>, done: seq<seq<Text>>, open: seq<Text>, rest: seq<Text>)
    requires LinesOk(lines) && Packed(lines, done, open, rest) && open != []
    requires rest == [] || !Fits(open + [rest[0]])
    ensures Packed(lines, done + [open], [], rest)
  {
    GroupsOpen(open, rest);
    assert [] + rest == rest;
    assert done + ([open] + Groups(rest)) == (done + [open]) + Groups(rest);
  }

  lemma TextsSnoc(done: seq<seq<Text>>, open: seq<Text>)
    ensures Texts(done + [open]) == Texts(done) + [Flatten(open)]
  {
  }

  lemma BatchesKeepText(lines: seq<Text>)
    requires LinesOk(lines)
    ensures Flatten(Texts(Groups(lines))) == Flatten(lines)
  {
    GroupsKeepLines(lines);
    TextsFlatten(Groups(lines));
  }

  /** The batching loop: each line goes into the open batch, which is closed first when the line
      would take it over the limit. */
  method Batch(lines: seq<Text>) returns (r: Result<seq<Text>, BuildError>)
    requires NoneEmpty(lines)
    ensures r.Err? ==> r.error.LineTooLong? || r.error.TooManyBatches?
    ensures r == Err(LineTooLong) <==> !LinesOk(lines)
    ensures r == Err(TooManyBatches) <==> LinesOk(lines) && |Groups(lines)| > MAX_BATCHES
    ensures r.Ok? ==> r.value == Texts(Groups(lines)) && Flatten(r.value) == Flatten(lines)
  {
    var batches: seq<Text> := [];
    var batch: Text := [];
    ghost var done: seq<seq<Text>> := [];
    ghost var open: seq<Text> := [];
    assert open + lines[0..] == lines;
    for n := 0 to |lines|
      invariant forall i :: 0 <= i < n ==> |lines[i]| <= LINE_LIMIT
      invariant batches == Texts(done) && batch == Flatten(open)
      invariant batch == [] <==> open == []
      invariant |batch| <= BATCH_LIMIT
      invariant LinesOk(lines) ==> Packed(lines, done, open, lines[n..])
    {
      var line := lines[n];
      if |line| > LINE_LIMIT {
        return Err(LineTooLong);
      }
      FlattenSnoc(open, line);
      if |batch| + |line| > BATCH_LIMIT {
        if LinesOk(lines) { PackedClose(lines, done, open, lines[n..]); }
        TextsSnoc(done, open);
        done := done + [open];
        batches := batches + [batch];
        batch, open := [], [];
        FlattenSnoc(open, line);
      }
      if LinesOk(lines) { PackedAdd(lines, done, open, lines[n..]); }
      assert lines[n..][1..] == lines[n + 1..];
      open := open + [line];
      batch := batch + line;
    }
    if batch != [] {
      PackedClose(lines, done, open, lines[|lines|..]);
      TextsSnoc(done, open);
      done := done + [open];
      batches := batches + [batch];
    }
    assert Groups(lines) == done;
    BatchesKeepText(lines);
    if |batches| > MAX_BATCHES {
      return Err(TooManyBatches);
    }
    return Ok(batches);
  }

  /*** Reading a publication back ***/

  /** A line: no line break but the one that ends it. */
  predicate Terminated(line: Text) {
    line != [] && line[|line| - 1] == '\n' && '\n' !in line[..|line| - 1]
  }

  function SplitLines(text: Text): seq<Text> {
    if text == [] then []
    else
      var n := Find(text, '\n');
      if n == |text| then [text] else [text[..n + 1]] + SplitLines(text[n + 1..])
  }

  lemma {:induction false} SplitLinesFlatten(lines: seq<Text>)
    requires forall i :: 0 <= i < |lines| ==> Terminated(lines[i])
    ensures SplitLines(Flatten(lines)) == lines
  {
    if lines != [] {
      var line, rest := lines[0], Flatten(lines[1..]);
      var head := line[..|line| - 1];
      assert line == head + ['\n'];
      FindAfter(head, '\n', rest);
      var text := Flatten(lines);
      assert text == head + ['\n'] + rest;
      assert text[..|line|] == line && text[|line|..] == rest;
      SplitLinesFlatten(lines[1..]);
    }
  }

  const ARCHIVE_PREFIX := "unifi_archive,"

  predicate IsArchiveLine(line: Text) {
    |line| >= |ARCHIVE_PREFIX| && line[..|ARCHIVE_PREFIX|] == ARCHIVE_PREFIX
  }

  /** The text between the first two quotes of a line. */
  function DataField(line: Text): Text {
    var tail := line[Min(Find(line, '"') + 1, |line|)..];
    tail[..Find(tail, '"')]
  }

  /** Decodes the data of every archive line, in order, and concatenates the results. */
  function Restore(lines: seq<Text>): Option<seq<Byte>> {
    if lines == [] then Some([])
    else if !IsArchiveLine(lines[0]) then Restore(lines[1..])
    else
      match (Decode(DataField(lines[0])), Restore(lines[1..]))
      case (Some(part), Some(rest)) => Some(part + rest)
      case _ => None
  }

  lemma {:induction false} DecimalDigits(n: nat)
    ensures forall i :: 0 <= i < |Decimal(n)| ==> '0' <= Decimal(n)[i] <= '9'
  {
    if n >= 10 { DecimalDigits(n / 10); }
  }

  /** What the configuration and JSON encoding guarantee of a snapshot's texts. */
  predicate PlainTexts(s: Snapshot) {
    && '"' !in s.tags && '\n' !in s.tags && ' ' !in s.tags && '\n' !in s.summary
    && forall c :: c in s.clients ==> '\n' !in c.counters && '\n' !in c.nameJson
  }

  function LineHead(s: Snapshot, index: nat): Text {
    "unifi_archive," + s.tags + ",part=" + Decimal(index) + " data="
  }

  lemma DataBetween(head: Text, data: Text, end: Text)
    requires '"' !in head && '"' !in data
    ensures DataField(head + "\"" + data + "\"" + end) == data
  {
    var line := head + "\"" + data + "\"" + end;
    assert line == head + ['"'] + (data + ['"'] + end);
    FindAfter(head, '"', data + ['"'] + end);
    FindAfter(data, '"', end);
    assert line[|head| + 1..] == data + ['"'] + end;
  }

  lemma LineHeadPlain(s: Snapshot, index: nat)
    requires PlainTexts(s)
    ensures '"' !in LineHead(s, index)
  {
    DecimalDigits(index);
    assert forall c :: c in Decimal(index) ==> '0' <= c <= '9';
    assert '"' !in ",part=" && '"' !in " data=" && '"' !in "unifi_archive,";
  }

  lemma ArchiveLineData(s: Snapshot, index: nat, chunk: seq<Byte>)
    requires PlainTexts(s)
    ensures Decode(DataField(ArchiveLine(s, index, chunk))) == Some(chunk)
  {
    LineHeadPlain(s, index);
    EncodePlain(chunk);
    DecodeEncode(chunk);
    DataBetween(LineHead(s, index), Encode(chunk), " " + Decimal(s.start) + "\n");
  }

  lemma {:induction false} ChunksFlatten(bytes: seq<Byte>)
    ensures Flatten(Chunks(bytes)) == bytes
    ensures forall i :: 0 <= i < |Chunks(bytes)| ==> 0 < |Chunks(bytes)[i]| <= CHUNK_BYTES
  {
    if 0 < |bytes| <= CHUNK_BYTES {
      assert Flatten([bytes]) == bytes + Flatten([]);
    } else if bytes != [] {
      ChunksFlatten(bytes[CHUNK_BYTES..]);
      assert bytes == bytes[..CHUNK_BYTES] + bytes[CHUNK_BYTES..];
    }
  }

  function Encodings(chunks: seq<seq<Byte>>): seq<Text> {
    if chunks == [] then [] else [Encode(chunks[0])] + Encodings(chunks[1..])
  }

  /** A chunk holds a multiple of three bytes, so the encoded parts also concatenate to the
      encoding of the whole archive. */
  lemma {:induction false} ChunkEncodings(bytes: seq<Byte>)
    ensures Flatten(Encodings(Chunks(bytes))) == Encode(bytes)
  {
    if 0 < |bytes| <= CHUNK_BYTES {
      assert Encodings([bytes]) == [Encode(bytes)] + Encodings([]);
      assert Flatten([Encode(bytes)]) == Encode(bytes) + Flatten([]);
    } else if bytes != [] {
      ChunkEncodings(bytes[CHUNK_BYTES..]);
      assert Chunks(bytes)[1..] == Chunks(bytes[CHUNK_BYTES..]);
      EncodeConcat(bytes[..CHUNK_BYTES], bytes[CHUNK_BYTES..]);
      assert bytes == bytes[..CHUNK_BYTES] + bytes[CHUNK_BYTES..];
    }
  }

  lemma RestoreOne(lines: seq<Text>, part: seq<Byte>, rest: seq<Byte>)
    requires lines != [] && IsArchiveLine(lines[0]) && Decode(DataField(lines[0])) == Some(part)
    requires Restore(lines[1..]) == Some(rest)
    ensures Restore(lines) == Some(part + rest)
  {
  }

  lemma FirstPart(lines: seq<Text>, x: seq<Byte>) returns (part: seq<Byte>, rest: seq<Byte>)
    requires lines != [] && IsArchiveLine(lines[0]) && Restore(lines) == Some(x)
    ensures Decode(DataField(lines[0])) == Some(part) && Restore(lines[1..]) == Some(rest) && x == part + rest
  {
    part, rest := Decode(DataField(lines[0])).value, Restore(lines[1..]).value;
  }

  lemma {:induction false} RestoreConcat(a: seq<Text>, b: seq<Text>, x: seq<Byte>, y: seq<Byte>)
    requires Restore(a) == Some(x) && Restore(b) == Some(y)
    ensures Restore(a + b) == Some(x + y)
  {
    if a == [] {
      assert a + b == b && x + y == y;
    } else {
      ConcatTail(a, b);
      if IsArchiveLine(a[0]) {
        var part, rest := FirstPart(a, x);
        RestoreConcat(a[1..], b, rest, y);
        RestoreOne(a + b, part, rest + y);
        Associative(part, rest, y);
      } else {
        RestoreConcat(a[1..], b, x, y);
      }
    }
  }

  lemma ArchiveLineKind(s: Snapshot, index: nat, chunk: seq<Byte>)
    ensures IsArchiveLine(ArchiveLine(s, index, chunk))
  {
    assert ArchiveLine(s, index, chunk)[..|ARCHIVE_PREFIX|] == ARCHIVE_PREFIX;
  }

  lemma OtherLineKinds(s: Snapshot, client: Client)
    ensures !IsArchiveLine(ClientLine(s, client)) && !IsArchiveLine(IntervalLine(s))
  {
    assert ARCHIVE_PREFIX[6] == 'a';
    assert ClientLine(s, client)[6] == 'c' && IntervalLine(s)[6] == 'i';
  }

  lemma {:induction false} RestoreArchiveLines(s: Snapshot, index: nat, chunks: seq<seq<Byte>>)
    requires PlainTexts(s)
    ensures Restore(ArchiveLines(s, index, chunks)) == Some(Flatten(chunks))
    decreases |chunks|
  {
    if chunks != [] {
      ArchiveLineKind(s, index, chunks[0]);
      ArchiveLineData(s, index, chunks[0]);
      RestoreArchiveLines(s, index + 1, chunks[1..]);
    }
  }

  lemma {:induction false} OtherLinesNoArchive(s: Snapshot, clients: seq<Client>)
    ensures forall line :: line in ClientLines(s, clients) + [IntervalLine(s)] ==> !IsArchiveLine(line)
  {
    if clients == [] {
      OtherLineKinds(s, Client([], []));
    } else {
      OtherLineKinds(s, clients[0]);
      OtherLinesNoArchive(s, clients[1..]);
    }
  }

  lemma {:induction false} RestoreSkips(lines: seq<Text>)
    requires forall line :: line in lines ==> !IsArchiveLine(line)
    ensures Restore(lines) == Some([])
  {
    if lines != [] { RestoreSkips(lines[1..]); }
  }

  lemma RestoreLines(s: Snapshot)
    requires PlainTexts(s)
    ensures Restore(Lines(s)) == Some(s.archive)
  {
    var archive := ArchiveLines(s, 0, Chunks(s.archive));
    var others := ClientLines(s, s.clients) + [IntervalLine(s)];
    RestoreArchiveLines(s, 0, Chunks(s.archive));
    ChunksFlatten(s.archive);
    OtherLinesNoArchive(s, s.clients);
    RestoreSkips(others);
    RestoreConcat(archive, others, s.archive, []);
    assert Lines(s) == archive + others;
    assert s.archive + [] == s.archive;
  }

  /*** Archive points by part number ***/

  /** The text after the last occurrence of a character. */
  function AfterLast(text: Text, c: char): Text {
    if c !in text then text else AfterLast(text[1..], c)
  }

  /** The part tag of an archive line: what its tag set, the text before the first space, ends in. */
  function PartTag(line: Text): Text {
    AfterLast(line[..Find(line, ' ')], '=')
  }

  lemma {:induction false} AfterLastSuffix(head: Text, c: char, tail: Text)
    requires c !in tail
    ensures AfterLast(head + [c] + tail, c) == tail
  {
    var text := head + [c] + tail;
    assert text[|head|] == c;
    if head == [] {
      assert text[1..] == tail;
    } else {
      assert text[1..] == head[1..] + [c] + tail;
      AfterLastSuffix(head[1..], c, tail);
    }
  }

  lemma PartTagOf(start: Text, digits: Text, tail: Text)
    requires ' ' !in start && ' ' !in digits && '=' !in digits
    ensures PartTag(start + ['='] + digits + [' '] + tail) == digits
  {
    var head := start + ['='] + digits;
    var line := head + [' '] + tail;
    assert ' ' !in head;
    FindAfter(head, ' ', tail);
    assert line[..|head|] == head;
    AfterLastSuffix(start, '=', digits);
  }

  lemma Regroup(a: Text, b: Text, c: Text, digits: Text, d: Text, rest: Text)
    ensures a + b + (c + ['=']) + digits + ([' '] + d) + rest == (a + b + c) + ['='] + digits + [' '] + (d + rest)
  {
  }

  lemma ArchiveLineShape(s: Snapshot, index: nat, chunk: seq<Byte>)
    ensures exists tail ::
              ArchiveLine(s, index, chunk) == ("unifi_archive," + s.tags + ",part") + ['='] + Decimal(index) + [' '] + tail
  {
    var rest := "\"" + Encode(chunk) + "\"" + (" " + Decimal(s.start) + "\n");
    Regroup("unifi_archive,", s.tags, ",part", Decimal(index), "data=", rest);
    assert ",part" + ['='] == ",part=" && [' '] + "data=" == " data=";
    assert ArchiveLine(s, index, chunk) == LineHead(s, index) + rest;
  }

  lemma ArchiveLinePart(s: Snapshot, index: nat, chunk: seq<Byte>)
    requires PlainTexts(s)
    ensures PartTag(ArchiveLine(s, index, chunk)) == Decimal(index)
  {
    var start := "unifi_archive," + s.tags + ",part";
    ArchiveLineShape(s, index, chunk);
    var tail :| ArchiveLine(s, index, chunk) == start + ['='] + Decimal(index) + [' '] + tail;
    DecimalDigits(index);
    assert ' ' !in "unifi_archive," && ' ' !in ",part";
    PartTagOf(start, Decimal(index), tail);
  }

  lemma {:induction false} DecimalInjective(a: nat, b: nat)
    requires Decimal(a) == Decimal(b)
    ensures a == b
  {
    var x, y := Decimal(a), Decimal(b);
    DecimalLength(a);
    DecimalLength(b);
    assert x[|x| - 1] == '0' + (a % 10) as char && y[|y| - 1] == '0' + (b % 10) as char;
    if a >= 10 && b >= 10 {
      assert x[..|x| - 1] == Decimal(a / 10) && y[..|y| - 1] == Decimal(b / 10);
      DecimalInjective(a / 10, b / 10);
    }
  }

  lemma DecimalLength(n: nat)
    ensures |Decimal(n)| >= 1 && (|Decimal(n)| == 1 <==> n < 10)
  {
    if n >= 10 { DecimalLength(n / 10); }
  }

  /** The stored archive points with a given part number. */
  function PartPoints(points: set<Text>, index: nat): set<Text> {
    set line | line in points && IsArchiveLine(line) && PartTag(line) == Decimal(index)
  }

  lemma {:induction false} ArchiveLinesAt(s: Snapshot, index: nat, chunks: seq<seq<Byte>>)
    ensures |ArchiveLines(s, index, chunks)| == |chunks|
    ensures forall k :: 0 <= k < |chunks| ==> ArchiveLines(s, index, chunks)[k] == ArchiveLine(s, index + k, chunks[k])
    decreases |chunks|
  {
    if chunks != [] { ArchiveLinesAt(s, index + 1, chunks[1..]); }
  }

  /** An archive line of a publication is that of one of its chunks. */
  lemma ArchiveLineSource(s: Snapshot, line: Text) returns (k: nat)
    requires line in Lines(s) && IsArchiveLine(line)
    ensures k < |Chunks(s.archive)| && line == ArchiveLine(s, k, Chunks(s.archive)[k])
  {
    var chunks := Chunks(s.archive);
    OtherLinesNoArchive(s, s.clients);
    var archive := ArchiveLines(s, 0, chunks);
    assert Lines(s) == archive + (ClientLines(s, s.clients) + [IntervalLine(s)]);
    assert line in archive;
    k :| 0 <= k < |archive| && archive[k] == line;
    ArchiveLinesAt(s, 0, chunks);
  }

  /** Every part number of a publication has exactly one point, and no other number has any: no point
      overwrites another. */
  lemma OnePointPerPart(s: Snapshot, index: nat)
    requires PlainTexts(s)
    ensures index < |Chunks(s.archive)| ==>
              PartPoints(Elements(Lines(s)), index) == {ArchiveLine(s, index, Chunks(s.archive)[index])}
    ensures index >= |Chunks(s.archive)| ==> PartPoints(Elements(Lines(s)), index) == {}
  {
    var chunks := Chunks(s.archive);
    forall line | line in PartPoints(Elements(Lines(s)), index)
      ensures index < |chunks| && line == ArchiveLine(s, index, chunks[index])
    {
      var k := ArchiveLineSource(s, line);
      ArchiveLinePart(s, k, chunks[k]);
      DecimalInjective(k, index);
    }
    if index < |chunks| {
      ArchiveLineKind(s, index, chunks[index]);
      ArchiveLinePart(s, index, chunks[index]);
      ArchiveLinesAt(s, 0, chunks);
      assert ArchiveLines(s, 0, chunks)[index] in Lines(s);
    }
  }

  /** Decodes one point per part number from `index` on, in numeric order, for `count` parts. */
  ghost function ReadArchive(points: set<Text>, index: nat, count: nat): Option<seq<Byte>>
    decreases count
  {
    if count == 0 then Some([])
    else if |PartPoints(points, index)| != 1 then None
    else
      var line :| line in PartPoints(points, index);
      match (Decode(DataField(line)), ReadArchive(points, index + 1, count - 1))
      case (Some(part), Some(rest)) => Some(part + rest)
      case _ => None
  }

  lemma ReadOne(points: set<Text>, index: nat, count: nat, line: Text, part: seq<Byte>, rest: seq<Byte>)
    requires PartPoints(points, index) == {line} && Decode(DataField(line)) == Some(part)
    requires ReadArchive(points, index + 1, count) == Some(rest)
    ensures ReadArchive(points, index, count + 1) == Some(part + rest)
  {
  }

  lemma {:induction false} ReadParts(points: set<Text>, index: nat, lines: seq<Text>, parts: seq<seq<Byte>>)
    requires |lines| == |parts|
    requires forall k :: 0 <= k < |lines| ==>
                           PartPoints(points, index + k) == {lines[k]} && Decode(DataField(lines[k])) == Some(parts[k])
    ensures ReadArchive(points, index, |parts|) == Some(Flatten(parts))
    decreases |parts|
  {
    if parts != [] {
      forall k | 0 <= k < |lines[1..]| ensures PartPoints(points, index + 1 + k) == {lines[1..][k]} {
        assert index + 1 + k == index + (k + 1) && lines[1..][k] == lines[k + 1];
      }
      ReadParts(points, index + 1, lines[1..], parts[1..]);
      assert PartPoints(points, index + 0) == {lines[0]};
      ReadOne(points, index, |parts| - 1, lines[0], parts[0], Flatten(parts[1..]));
    }
  }

  /** The archive can be read back from the stored points alone, in numeric part order. */
  lemma ArchiveFromPoints(s: Snapshot)
    requires PlainTexts(s)
    ensures ReadArchive(Elements(Lines(s)), 0, |Chunks(s.archive)|) == Some(s.archive)
  {
    var chunks := Chunks(s.archive);
    var lines := ArchiveLines(s, 0, chunks);
    ArchiveLinesAt(s, 0, chunks);
    forall k | 0 <= k < |lines|
      ensures PartPoints(Elements(Lines(s)), 0 + k) == {lines[k]} && Decode(DataField(lines[k])) == Some(chunks[k])
    {
      OnePointPerPart(s, k);
      ArchiveLineData(s, k, chunks[k]);
    }
    ReadParts(Elements(Lines(s)), 0, lines, chunks);
    ChunksFlatten(s.archive);
  }

  /*** Lines survive transport ***/

  lemma {:induction false} ReplacePlain(value: Text, c: char, with: Text)
    requires '\n' !in value && '\n' !in with
    ensures '\n' !in Replace(value, c, with)
  {
    if value != [] { ReplacePlain(value[1..], c, with); }
  }

  lemma QuotedPlain(value: Text)
    requires '\n' !in value
    ensures '\n' !in Quoted(value)
  {
    ReplacePlain(value, '\\', "\\\\");
    ReplacePlain(Replace(value, '\\', "\\\\"), '"', "\\\"");
  }

  lemma EndsLine(body: Text)
    requires '\n' !in body
    ensures Terminated(body + "\n")
  {
    assert (body + "\n")[..|body|] == body;
  }

  lemma DecimalPlain(n: nat)
    ensures '\n' !in Decimal(n)
  {
    DecimalDigits(n);
  }

  lemma ArchiveLineEnds(s: Snapshot, index: nat, chunk: seq<Byte>)
    requires PlainTexts(s)
    ensures Terminated(ArchiveLine(s, index, chunk))
  {
    DecimalPlain(index);
    DecimalPlain(s.start);
    EncodePlain(chunk);
    var body := "unifi_archive," + s.tags + ",part=" + Decimal(index) + " data=" + "\"" + Encode(chunk) + "\"" + (" " + Decimal(s.start));
    EndsLine(body);
    assert ArchiveLine(s, index, chunk) == body + "\n";
  }

  lemma ClientLineEnds(s: Snapshot, client: Client)
    requires PlainTexts(s) && '\n' !in client.counters && '\n' !in client.nameJson
    ensures Terminated(ClientLine(s, client))
  {
    DecimalPlain(s.start);
    QuotedPlain(client.nameJson);
    var prefix := "unifi_client," + s.tags + "," + client.counters + ",";
    EndsLine(prefix + "name_json=" + Quoted(client.nameJson) + " " + Decimal(s.start));
    EndsLine(prefix + "name_in_archive=true " + Decimal(s.start));
  }

  lemma IntervalLineEnds(s: Snapshot)
    requires PlainTexts(s)
    ensures Terminated(IntervalLine(s))
  {
    DecimalPlain(s.start);
    EndsLine("unifi_interval," + s.tags + " " + s.summary + " " + Decimal(s.start));
  }

  lemma {:induction false} ArchiveLinesEnd(s: Snapshot, index: nat, chunks: seq<seq<Byte>>)
    requires PlainTexts(s)
    ensures forall line :: line in ArchiveLines(s, index, chunks) ==> Terminated(line)
    decreases |chunks|
  {
    if chunks != [] {
      ArchiveLineEnds(s, index, chunks[0]);
      ArchiveLinesEnd(s, index + 1, chunks[1..]);
    }
  }

  lemma {:induction false} ClientLinesEnd(s: Snapshot, clients: seq<Client>)
    requires PlainTexts(s) && forall c :: c in clients ==> c in s.clients
    ensures forall line :: line in ClientLines(s, clients) ==> Terminated(line)
  {
    if clients != [] {
      ClientLineEnds(s, clients[0]);
      ClientLinesEnd(s, clients[1..]);
    }
  }

  /** The bodies of the requests, joined, split back into exactly the lines that were built. */
  lemma BodyLines(s: Snapshot)
    requires Buildable(s) && PlainTexts(s)
    ensures SplitLines(Flatten(BuildBatches(s).value)) == Lines(s)
  {
    ArchiveLinesEnd(s, 0, Chunks(s.archive));
    ClientLinesEnd(s, s.clients);
    IntervalLineEnds(s);
    SplitLinesFlatten(Lines(s));
    BatchesKeepText(Lines(s));
  }

  /** Publication fidelity: reading the archive lines of the written bodies gives back the exact
      archive bytes. */
  lemma ArchiveRoundTrip(s: Snapshot)
    requires Buildable(s) && PlainTexts(s)
    ensures Restore(SplitLines(Flatten(BuildBatches(s).value))) == Some(s.archive)
  {
    BodyLines(s);
    RestoreLines(s);
  }

  /*** The builder ***/

  lemma {:induction false} ArchiveLinesSnoc(s: Snapshot, index: nat, chunks: seq<seq<Byte>>, chunk: seq<Byte>)
    ensures ArchiveLines(s, index, chunks + [chunk])
         == ArchiveLines(s, index, chunks) + [ArchiveLine(s, index + |chunks|, chunk)]
    decreases |chunks|
  {
    if chunks != [] {
      assert (chunks + [chunk])[1..] == chunks[1..] + [chunk];
      ArchiveLinesSnoc(s, index + 1, chunks[1..], chunk);
    }
  }

  lemma {:induction false} ClientLinesSnoc(s: Snapshot, clients: seq<Client>, client: Client)
    ensures ClientLines(s, clients + [client]) == ClientLines(s, clients) + [ClientLine(s, client)]
  {
    if clients != [] {
      assert (clients + [client])[1..] == clients[1..] + [client];
      ClientLinesSnoc(s, clients[1..], client);
    }
  }

  method WriteArchive(s: Snapshot) returns (lines: seq<Text>)
    ensures lines == ArchiveLines(s, 0, Chunks(s.archive)) && NoneEmpty(lines)
  {
    var chunks := Chunks(s.archive);
    lines := [];
    for index := 0 to |chunks|
      invariant lines == ArchiveLines(s, 0, chunks[..index]) && NoneEmpty(lines)
    {
      ArchiveLinesSnoc(s, 0, chunks[..index], chunks[index]);
      assert chunks[..index + 1] == chunks[..index] + [chunks[index]];
      lines := lines + [ArchiveLine(s, index, chunks[index])];
    }
    assert chunks[..|chunks|] == chunks;
  }

  method WriteClients(s: Snapshot) returns (lines: seq<Text>)
    ensures lines == ClientLines(s, s.clients) && NoneEmpty(lines)
  {
    lines := [];
    for index := 0 to |s.clients|
      invariant lines == ClientLines(s, s.clients[..index]) && NoneEmpty(lines)
    {
      ClientLinesSnoc(s, s.clients[..index], s.clients[index]);
      assert s.clients[..index + 1] == s.clients[..index] + [s.clients[index]];
      lines := lines + [ClientLine(s, s.clients[index])];
    }
    assert s.clients[..|s.clients|] == s.clients;
  }

  /** Assembles the lines and batches them; nothing is returned unless the archive, every line and
      the number of requests are within their bounds. */
  method Build(s: Snapshot) returns (r: Result<seq<Text>, BuildError>)
    ensures r == BuildBatches(s)
    ensures r.Ok? <==> Buildable(s)
  {
    if |s.archive| > MAX_ARCHIVE_BYTES {
      return Err(ArchiveTooLarge);
    }
    var archive := WriteArchive(s);
    if s.activity == Collected && !s.activityLegible {
      return Err(ReportUnreadable);
    }
    var clients := WriteClients(s);
    if s.wan == Collected && !s.wanLegible {
      return Err(ReportUnreadable);
    }
    r := Batch(archive + clients + [IntervalLine(s)]);
  }
}
