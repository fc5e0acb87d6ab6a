/** What a publication says about its snapshot, read back from the bodies of its requests: one point for every
    part of the archive, one for every client, and one for the hour itself. */
module PublicationPoints {
  import opened Common
  import opened Base64
  import opened Publication

  /*** Reading ***/

  /** The number that a text of decimal digits stands for. */
  function Number(text: Text): nat {
    if text == [] then 0
    else Number(text[..|text| - 1]) * 10 + (if '0' <= text[|text| - 1] <= '9' then (text[|text| - 1] - '0') as nat else 0)
  }

  predicate Digits(text: Text) {
    text != [] && forall i :: 0 <= i < |text| ==> '0' <= text[i] <= '9'
  }

  /** The text writes this number in decimal digits. */
  predicate Writes(text: Text, n: nat) {
    Digits(text) && Number(text) == n
  }

  lemma {:induction false} DecimalWrites(n: nat)
    ensures Writes(Decimal(n), n)
  {
    if n >= 10 {
      DecimalWrites(n / 10);
      var text := Decimal(n);
      assert text[..|text| - 1] == Decimal(n / 10);
    }
  }

  predicate Begins(prefix: Text, line: Text) {
    prefix <= line
  }

  /** The lines with a given beginning, in order. */
  function Beginning(prefix: Text, lines: seq<Text>): seq<Text> {
    if lines == [] then []
    else (if Begins(prefix, lines[0]) then [lines[0]] else []) + Beginning(prefix, lines[1..])
  }

  lemma {:induction false} BeginningConcat(prefix: Text, a: seq<Text>, b: seq<Text>)
    ensures Beginning(prefix, a + b) == Beginning(prefix, a) + Beginning(prefix, b)
  {
    if a == [] {
      assert a + b == b;
    } else {
      ConcatTail(a, b);
      BeginningConcat(prefix, a[1..], b);
    }
  }

  lemma {:induction false} BeginningAll(prefix: Text, lines: seq<Text>)
    requires forall line :: line in lines ==> Begins(prefix, line)
    ensures Beginning(prefix, lines) == lines
  {
    if lines != [] { BeginningAll(prefix, lines[1..]); }
  }

  lemma {:induction false} BeginningNone(prefix: Text, lines: seq<Text>)
    requires forall line :: line in lines ==> !Begins(prefix, line)
    ensures Beginning(prefix, lines) == []
  {
    if lines != [] { BeginningNone(prefix, lines[1..]); }
  }

  /*** Kinds of lines ***/

  const ARCHIVE := "unifi_archive,"
  const CLIENT := "unifi_client,"
  const INTERVAL := "unifi_interval,"

  lemma PrefixesDiffer(line: Text)
    ensures Begins(ARCHIVE, line) ==> !Begins(CLIENT, line) && !Begins(INTERVAL, line)
    ensures Begins(CLIENT, line) ==> !Begins(INTERVAL, line)
  {
    assert ARCHIVE[6] == 'a' && CLIENT[6] == 'c' && INTERVAL[6] == 'i';
    assert Begins(ARCHIVE, line) ==> line[6] == 'a';
    assert Begins(CLIENT, line) ==> line[6] == 'c';
    assert Begins(INTERVAL, line) ==> line[6] == 'i';
  }

  lemma ArchiveBegins(s: Snapshot, index: nat, chunk: seq<Byte>)
    ensures Begins(ARCHIVE, ArchiveLine(s, index, chunk))
  {
    ArchiveLineKind(s, index, chunk);
  }

  lemma ClientBegins(s: Snapshot, client: Client)
    ensures Begins(CLIENT, ClientLine(s, client))
  {
  }

  lemma IntervalBegins(s: Snapshot)
    ensures Begins(INTERVAL, IntervalLine(s))
  {
  }

  lemma {:induction false} ArchiveLinesBegin(s: Snapshot, index: nat, chunks: seq<seq<Byte>>)
    ensures forall line :: line in ArchiveLines(s, index, chunks) ==> Begins(ARCHIVE, line)
    decreases |chunks|
  {
    if chunks != [] {
      ArchiveBegins(s, index, chunks[0]);
      ArchiveLinesBegin(s, index + 1, chunks[1..]);
    }
  }

  lemma {:induction false} ClientLinesBegin(s: Snapshot, clients: seq<Client>)
    ensures forall line :: line in ClientLines(s, clients) ==> Begins(CLIENT, line)
  {
    if clients != [] {
      ClientBegins(s, clients[0]);
      ClientLinesBegin(s, clients[1..]);
    }
  }

  lemma {:induction false} ClientLinesAt(s: Snapshot, clients: seq<Client>)
    ensures |ClientLines(s, clients)| == |clients|
    ensures forall i :: 0 <= i < |clients| ==> ClientLines(s, clients)[i] == ClientLine(s, clients[i])
  {
    if clients != [] { ClientLinesAt(s, clients[1..]); }
  }

  /** Of one kind of lines, only those with its beginning are found. */
  lemma OnlyKind(kind: Text, other: Text, lines: seq<Text>)
    requires kind in {ARCHIVE, CLIENT, INTERVAL} && other in {ARCHIVE, CLIENT, INTERVAL}
    requires forall line :: line in lines ==> Begins(kind, line)
    ensures Beginning(other, lines) == if kind == other then lines else []
  {
    if kind == other {
      BeginningAll(kind, lines);
    } else {
      forall line | line in lines ensures !Begins(other, line) {
        PrefixesDiffer(line);
      }
      BeginningNone(other, lines);
    }
  }

  /** The lines of a publication by kind. */
  lemma LinesByKind(s: Snapshot)
    ensures Beginning(ARCHIVE, Lines(s)) == ArchiveLines(s, 0, Chunks(s.archive))
    ensures Beginning(CLIENT, Lines(s)) == ClientLines(s, s.clients)
    ensures Beginning(INTERVAL, Lines(s)) == [IntervalLine(s)]
  {
    var archive, clients, hour := ArchiveLines(s, 0, Chunks(s.archive)), ClientLines(s, s.clients), [IntervalLine(s)];
    ArchiveLinesBegin(s, 0, Chunks(s.archive));
    ClientLinesBegin(s, s.clients);
    IntervalBegins(s);
    KindsApart(ARCHIVE, archive, clients, hour);
    KindsApart(CLIENT, archive, clients, hour);
    KindsApart(INTERVAL, archive, clients, hour);
  }

  lemma KindsApart(kind: Text, archive: seq<Text>, clients: seq<Text>, hour: seq<Text>)
    requires kind in {ARCHIVE, CLIENT, INTERVAL}
    requires forall line :: line in archive ==> Begins(ARCHIVE, line)
    requires forall line :: line in clients ==> Begins(CLIENT, line)
    requires forall line :: line in hour ==> Begins(INTERVAL, line)
    ensures Beginning(kind, archive + clients + hour)
         == (if kind == ARCHIVE then archive else []) + (if kind == CLIENT then clients else []) + (if kind == INTERVAL then hour else [])
  {
    OnlyKind(ARCHIVE, kind, archive);
    OnlyKind(CLIENT, kind, clients);
    OnlyKind(INTERVAL, kind, hour);
    BeginningConcat(kind, archive + clients, hour);
    BeginningConcat(kind, archive, clients);
  }

  /*** What the points carry ***/

  /** The lines found in the written bodies. */
  function Written(s: Snapshot): seq<Text>
    requires Buildable(s)
  {
    SplitLines(Flatten(BuildBatches(s).value))
  }

  /** The point of one part of the archive: the tags of the collector and the revision, the number of the part, its bytes
      in base64, and the start of the hour. */
  predicate PartPoint(line: Text, s: Snapshot, part: Text, index: nat, stamp: Text, chunk: seq<Byte>) {
    && line == ARCHIVE + s.tags + ",part=" + part + " data=" + "\"" + Encode(chunk) + "\"" + (" " + stamp + "\n")
    && Writes(part, index) && Writes(stamp, s.start)
  }

  /** The size of a quoted text: its characters, one more for each quote and backslash, and two quotes. */
  function QuotedSize(value: Text): nat {
    2 + |value| + Special(value)
  }

  function Special(value: Text): nat {
    if value == [] then 0 else (if value[0] == '"' || value[0] == '\\' then 1 else 0) + Special(value[1..])
  }

  lemma {:induction false} EscapedSize(value: Text)
    ensures |Escaped(value)| == |value| + Special(value)
  {
    if value != [] {
      EscapedStep(value);
      EscapedSize(value[1..]);
    }
  }

  /** The size of a client's line with its name in it. */
  function NamedSize(s: Snapshot, client: Client, stamp: Text): nat {
    13 + |s.tags| + 1 + |client.counters| + 1 + 10 + QuotedSize(client.nameJson) + 1 + |stamp| + 1
  }

  /** The field of a name that reads back as it is, and nothing else. */
  predicate NameField(field: Text, name: Text) {
    "name_json=\"" <= field && Scan(field[11..]) == Some((name, []))
  }

  /** The point of a client: the tags, its counters, the start of the hour, and its name, unless the line would exceed
      64 KiB with it; then the name is left to the archive. */
  predicate ClientPoint(line: Text, s: Snapshot, client: Client, field: Text, stamp: Text) {
    && line == CLIENT + s.tags + "," + client.counters + "," + field + " " + stamp + "\n"
    && Writes(stamp, s.start)
    && (if NamedSize(s, client, stamp) <= 65_536 then NameField(field, client.nameJson) else field == "name_in_archive=true")
  }

  /** The point of the hour: the tags, the summary and the start. */
  predicate HourPoint(line: Text, s: Snapshot, stamp: Text) {
    line == INTERVAL + s.tags + " " + s.summary + " " + stamp + "\n" && Writes(stamp, s.start)
  }

  lemma NameFieldReads(name: Text)
    ensures NameField("name_json=" + Quoted(name), name)
  {
    var field := "name_json=" + Quoted(name);
    QuotedRoundTrip(name, []);
    assert Quoted(name) + [] == Quoted(name);
    assert field[..11] == "name_json=\"" && field[11..] == Quoted(name)[1..];
  }

  lemma NamedLine(prefix: Text, field: Text, stamp: Text)
    ensures prefix + "name_json=" + field + " " + stamp + "\n" == prefix + ("name_json=" + field) + " " + stamp + "\n"
    ensures |prefix + "name_json=" + field + " " + stamp + "\n"| == |prefix| + 10 + |field| + 1 + |stamp| + 1
  {
  }

  lemma ArchivedLine(prefix: Text, stamp: Text)
    ensures prefix + "name_in_archive=true " + stamp + "\n" == prefix + "name_in_archive=true" + " " + stamp + "\n"
  {
  }

  lemma ClientLineCarries(s: Snapshot, client: Client) returns (field: Text, stamp: Text)
    ensures ClientPoint(ClientLine(s, client), s, client, field, stamp)
  {
    stamp := Decimal(s.start);
    DecimalWrites(s.start);
    var prefix := "unifi_client," + s.tags + "," + client.counters + ",";
    EscapedSize(client.nameJson);
    assert |Quoted(client.nameJson)| == QuotedSize(client.nameJson);
    NamedLine(prefix, Quoted(client.nameJson), stamp);
    if NamedSize(s, client, stamp) <= 65_536 {
      field := "name_json=" + Quoted(client.nameJson);
      NameFieldReads(client.nameJson);
    } else {
      field := "name_in_archive=true";
      ArchivedLine(prefix, stamp);
    }
  }

  ghost predicate IsPartPoint(line: Text, s: Snapshot, index: nat, chunk: seq<Byte>) {
    exists part, stamp :: PartPoint(line, s, part, index, stamp, chunk)
  }

  ghost predicate IsClientPoint(line: Text, s: Snapshot, client: Client) {
    exists field, stamp :: ClientPoint(line, s, client, field, stamp)
  }

  ghost predicate IsHourPoint(line: Text, s: Snapshot) {
    exists stamp :: HourPoint(line, s, stamp)
  }

  lemma ClientLineIsPoint(s: Snapshot, client: Client)
    ensures IsClientPoint(ClientLine(s, client), s, client)
  {
    var field, stamp := ClientLineCarries(s, client);
  }

  lemma ArchiveLineIsPoint(s: Snapshot, index: nat, chunk: seq<Byte>)
    ensures IsPartPoint(ArchiveLine(s, index, chunk), s, index, chunk)
  {
    DecimalWrites(index);
    DecimalWrites(s.start);
    assert PartPoint(ArchiveLine(s, index, chunk), s, Decimal(index), index, Decimal(s.start), chunk);
  }

  lemma IntervalLineIsPoint(s: Snapshot)
    ensures IsHourPoint(IntervalLine(s), s)
  {
    DecimalWrites(s.start);
    assert HourPoint(IntervalLine(s), s, Decimal(s.start));
  }

  lemma WrittenByKind(s: Snapshot)
    requires Buildable(s) && PlainTexts(s)
    ensures Beginning(ARCHIVE, Written(s)) == ArchiveLines(s, 0, Chunks(s.archive))
    ensures Beginning(CLIENT, Written(s)) == ClientLines(s, s.clients)
    ensures Beginning(INTERVAL, Written(s)) == [IntervalLine(s)]
    ensures Written(s) != [] && Written(s)[|Written(s)| - 1] == IntervalLine(s)
  {
    BodyLines(s);
    LinesByKind(s);
  }

  /*** Results ***/

  /** The clients of an hour: the written bodies hold one point for each client, in order, and no other client point. */
  lemma ClientPoints(s: Snapshot)
    requires Buildable(s) && PlainTexts(s)
    ensures var points := Beginning(CLIENT, Written(s));
            |points| == |s.clients| && forall i :: 0 <= i < |s.clients| ==> IsClientPoint(points[i], s, s.clients[i])
  {
    WrittenByKind(s);
    ClientLinesAt(s, s.clients);
    forall i | 0 <= i < |s.clients| ensures IsClientPoint(ClientLines(s, s.clients)[i], s, s.clients[i]) {
      ClientLineIsPoint(s, s.clients[i]);
    }
  }

  /** The parts of the archive, in order and numbered from zero. */
  lemma PartPoints(s: Snapshot)
    requires Buildable(s) && PlainTexts(s)
    ensures var points, chunks := Beginning(ARCHIVE, Written(s)), Chunks(s.archive);
            |points| == |chunks| && forall i :: 0 <= i < |chunks| ==> IsPartPoint(points[i], s, i, chunks[i])
  {
    var chunks := Chunks(s.archive);
    WrittenByKind(s);
    ArchiveLinesAt(s, 0, chunks);
    forall i | 0 <= i < |chunks| ensures IsPartPoint(ArchiveLines(s, 0, chunks)[i], s, i, chunks[i]) {
      assert ArchiveLines(s, 0, chunks)[i] == ArchiveLine(s, 0 + i, chunks[i]);
      ArchiveLineIsPoint(s, i, chunks[i]);
    }
  }

  /** The hour itself: its point is the last line and the only one of its kind. */
  lemma HourIsLast(s: Snapshot)
    requires Buildable(s) && PlainTexts(s)
    ensures Written(s) != [] && Beginning(INTERVAL, Written(s)) == [Written(s)[|Written(s)| - 1]]
    ensures IsHourPoint(Written(s)[|Written(s)| - 1], s)
  {
    WrittenByKind(s);
    IntervalLineIsPoint(s);
  }

  /** The number of records: a point for every 12,000 bytes of the archive and the rest, one for every client, and one;
      no other line is written. */
  lemma RecordCount(s: Snapshot)
    ensures |Lines(s)| == (|s.archive| + 11_999) / 12_000 + |s.clients| + 1
    ensures Buildable(s) && PlainTexts(s) ==> |Written(s)| == |Lines(s)|
  {
    ArchiveLinesAt(s, 0, Chunks(s.archive));
    ClientLinesAt(s, s.clients);
    ChunkShape(s.archive);
    if Buildable(s) && PlainTexts(s) { BodyLines(s); }
  }

  /** Every part but the last has exactly 12,000 bytes. */
  lemma {:induction false} ChunkShape(bytes: seq<Byte>)
    ensures |Chunks(bytes)| == (|bytes| + 11_999) / 12_000
    ensures forall i :: 0 <= i < |Chunks(bytes)| - 1 ==> |Chunks(bytes)[i]| == 12_000
  {
    if |bytes| > 12_000 { ChunkShape(bytes[12_000..]); }
  }

  lemma {:induction false} NoLineEmpty(s: Snapshot)
    ensures forall line :: line in Lines(s) ==> line != []
  {
    var archive, clients := ArchiveLines(s, 0, Chunks(s.archive)), ClientLines(s, s.clients);
    ArchiveLinesBegin(s, 0, Chunks(s.archive));
    ClientLinesBegin(s, s.clients);
    IntervalBegins(s);
    assert forall line :: line in Lines(s) ==> line in archive || line in clients || line == IntervalLine(s);
  }

  lemma LinesOkIff(s: Snapshot)
    ensures LinesOk(Lines(s)) <==> forall line :: line in Lines(s) ==> |line| <= 65_536
  {
    NoLineEmpty(s);
    assert forall i :: 0 <= i < |Lines(s)| ==> Lines(s)[i] in Lines(s);
  }

  /** Which publications can be built: archive of at most 32 MiB, readable reports of the collected sources, no line above
      64 KiB, and no more than 256 requests. */
  lemma BuildableIff(s: Snapshot)
    ensures Buildable(s) <==>
            && |s.archive| <= 33_554_432
            && (s.activity == Collected ==> s.activityLegible) && (s.wan == Collected ==> s.wanLegible)
            && LinesOk(Lines(s)) && |Groups(Lines(s))| <= 256
    ensures Buildable(s) ==> forall line :: line in Lines(s) ==> |line| <= 65_536
    ensures (exists line :: line in Lines(s) && |line| > 65_536) ==> !Buildable(s)
  {
    LinesOkIff(s);
  }

  /** An hour is collected when each of its three sources is. */
  lemma CollectedIff(s: Snapshot)
    ensures IsCollected(s) <==> forall i :: 0 <= i < 3 ==> [s.activity, s.graph, s.wan][i] == Collected
  {
    var sources := [s.activity, s.graph, s.wan];
    assert sources[0] == s.activity && sources[1] == s.graph && sources[2] == s.wan;
  }
}
