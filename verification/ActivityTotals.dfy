/** Checked totals of a traffic activity report: identities, duplicate counters and 64-bit sums. */
module ActivityTotals {
  import opened Common

  /*** Sums and keys of sequences ***/

  function Total<T>(s: seq<T>, f: T -> nat): nat {
    if s == [] then 0 else f(s[0]) + Total(s[1..], f)
  }

  lemma {:induction false} TotalConcat<T>(a: seq<T>, b: seq<T>, f: T -> nat)
    ensures Total(a + b, f) == Total(a, f) + Total(b, f)
  {
    if a == [] {
      assert a + b == b;
    } else {
      assert (a + b)[1..] == a[1..] + b;
      TotalConcat(a[1..], b, f);
    }
  }

  lemma TotalSnoc<T>(s: seq<T>, x: T, f: T -> nat)
    ensures Total(s + [x], f) == Total(s, f) + f(x)
  {
    TotalConcat(s, [x], f);
    assert Total([x], f) == f(x) + Total([], f);
  }

  lemma TotalPrefix<T>(s: seq<T>, n: nat, f: T -> nat)
    requires n <= |s|
    ensures Total(s[..n], f) <= Total(s, f)
  {
    assert s == s[..n] + s[n..];
    TotalConcat(s[..n], s[n..], f);
  }

  predicate Permuted<T(==)>(a: seq<T>, b: seq<T>) {
    multiset(a) == multiset(b)
  }

  /** A sum does not depend on order. */
  lemma {:induction false} TotalPermuted<T>(a: seq<T>, b: seq<T>, f: T -> nat)
    requires Permuted(a, b)
    ensures Total(a, f) == Total(b, f)
  {
    if a == [] {
      assert |b| == |multiset(b)|;
    } else {
      assert a[0] in multiset(a);
      var k :| 0 <= k < |b| && b[k] == a[0];
      var rest := b[..k] + b[k + 1..];
      assert a == [a[0]] + a[1..];
      assert b == b[..k] + [b[k]] + b[k + 1..];
      assert multiset(a) == multiset{a[0]} + multiset(a[1..]);
      assert multiset(b) == multiset(b[..k]) + multiset{b[k]} + multiset(b[k + 1..]);
      assert multiset(rest) == multiset(b[..k]) + multiset(b[k + 1..]);
      assert multiset(a[1..]) == multiset(a) - multiset{a[0]};
      assert multiset(rest) == multiset(b) - multiset{b[k]};
      TotalPermuted(a[1..], rest, f);
      TotalConcat(b[..k], b[k + 1..], f);
      TotalConcat(b[..k] + [b[k]], b[k + 1..], f);
      TotalSnoc(b[..k], b[k], f);
    }
  }

  ghost function KeySet<T, K>(s: seq<T>, key: T -> K): set<K> {
    set x | x in s :: key(x)
  }

  /** No two elements have the same key. */
  predicate NoRepeat<T, K(==)>(s: seq<T>, key: T -> K) {
    forall i, j :: 0 <= i < j < |s| ==> key(s[i]) != key(s[j])
  }

  lemma NoRepeatSnoc<T, K>(front: seq<T>, last: T, key: T -> K)
    ensures NoRepeat(front + [last], key) <==> NoRepeat(front, key) && key(last) !in KeySet(front, key)
  {
    var s := front + [last];
    if NoRepeat(s, key) {
      assert forall i, j :: 0 <= i < j < |front| ==> s[i] == front[i] && s[j] == front[j];
      forall x | x in front ensures key(x) != key(last) {
        var i :| 0 <= i < |front| && front[i] == x;
        assert s[i] == x && s[|front|] == last;
      }
    }
    if key(last) !in KeySet(front, key) {
      forall i | 0 <= i < |front| ensures key(s[i]) != key(last) {
        assert front[i] in front;
      }
    }
  }

  lemma KeySetSnoc<T, K>(front: seq<T>, last: T, key: T -> K)
    ensures KeySet(front + [last], key) == KeySet(front, key) + {key(last)}
  {
    assert forall x :: x in front + [last] <==> x in front || x == last;
  }

  lemma {:induction false} KeySetCount<T, K>(s: seq<T>, key: T -> K)
    ensures |KeySet(s, key)| <= |s|
    ensures NoRepeat(s, key) <==> |KeySet(s, key)| == |s|
  {
    if s != [] {
      var front, last := s[..|s| - 1], s[|s| - 1];
      KeySetCount(front, key);
      NoRepeatSnoc(front, last, key);
      KeySetSnoc(front, last, key);
      assert s == front + [last];
    }
  }

  lemma PermutedMembers<T>(a: seq<T>, b: seq<T>)
    requires Permuted(a, b)
    ensures |a| == |b| && forall x :: x in a <==> x in b
  {
    assert |a| == |multiset(a)| && |b| == |multiset(b)|;
    assert forall x :: x in a <==> x in multiset(a);
    assert forall x :: x in b <==> x in multiset(b);
  }

  lemma NoRepeatPermuted<T, K>(a: seq<T>, b: seq<T>, key: T -> K)
    requires Permuted(a, b)
    ensures NoRepeat(a, key) <==> NoRepeat(b, key)
  {
    PermutedMembers(a, b);
    KeySetCount(a, key);
    KeySetCount(b, key);
    assert KeySet(a, key) == KeySet(b, key);
  }

  /*** Reports ***/

  datatype App = App(category: nat, application: nat, received: nat, transmitted: nat)

  datatype Client = Client(mac: string, name: Option<string>, usage: seq<App>)

  datatype Report = Report(clients: seq<Client>, totals: seq<App>)

  datatype Bytes = Bytes(rx: nat, tx: nat)

  datatype ClientRow = ClientRow(mac: string, name: Option<string>, bytes: Bytes)

  datatype TotalsError = NoCounters | BadIdentity | DuplicateCounter | Overflow

  const AppKey := (a: App) => (a.category, a.application)
  const AppRx := (a: App) => a.received
  const AppTx := (a: App) => a.transmitted
  const ClientKey := (c: Client) => Normalized(c.mac)
  const ClientRx := (c: Client) => Total(c.usage, AppRx)
  const ClientTx := (c: Client) => Total(c.usage, AppTx)
  const RowRx := (r: ClientRow) => r.bytes.rx
  const RowTx := (r: ClientRow) => r.bytes.tx

  /** A counter list adds up: no application twice, and both sums fit 64 bits. */
  predicate SumOk(rows: seq<App>) {
    NoRepeat(rows, AppKey) && Total(rows, AppRx) <= U64_MAX && Total(rows, AppTx) <= U64_MAX
  }

  predicate ClientOk(c: Client) {
    c.usage != [] && IsClientMac(Normalized(c.mac)) && NoRepeat(c.usage, AppKey)
  }

  /** A report adds up: every client has counters and a valid identity of its own, no counter is
      repeated, and the sums fit 64 bits. */
  predicate ReportOk(r: Report) {
    && (forall i :: 0 <= i < |r.clients| ==> ClientOk(r.clients[i]))
    && NoRepeat(r.clients, ClientKey)
    && Total(r.clients, ClientRx) <= U64_MAX && Total(r.clients, ClientTx) <= U64_MAX
    && SumOk(r.totals)
  }

  function RowOf(c: Client): ClientRow {
    ClientRow(Normalized(c.mac), c.name, Bytes(Total(c.usage, AppRx), Total(c.usage, AppTx)))
  }

  function RowsOf(clients: seq<Client>): seq<ClientRow> {
    seq(|clients|, i requires 0 <= i < |clients| => RowOf(clients[i]))
  }

  /*** Counters by their own names ***/

  function Received(usage: seq<App>): nat {
    if usage == [] then 0 else usage[0].received + Received(usage[1..])
  }

  function Transmitted(usage: seq<App>): nat {
    if usage == [] then 0 else usage[0].transmitted + Transmitted(usage[1..])
  }

  lemma {:induction false} UsageTotals(usage: seq<App>)
    ensures Total(usage, AppRx) == Received(usage) && Total(usage, AppTx) == Transmitted(usage)
  {
    if usage != [] { UsageTotals(usage[1..]); }
  }

  /** Two counters are for the same application of the same category. */
  predicate SameCounter(a: App, b: App) {
    a.category == b.category && a.application == b.application
  }

  predicate NoSameCounter(usage: seq<App>) {
    forall i, j :: 0 <= i < j < |usage| ==> !SameCounter(usage[i], usage[j])
  }

  /** A counter list adds up exactly when no counter comes twice and both sums fit 64 bits. */
  lemma SumOkIff(usage: seq<App>)
    ensures SumOk(usage) <==>
            NoSameCounter(usage) && Received(usage) <= 0xFFFF_FFFF_FFFF_FFFF && Transmitted(usage) <= 0xFFFF_FFFF_FFFF_FFFF
  {
    UsageTotals(usage);
    SameKeys(usage);
  }

  /** The returned row of a client: its normalized address, its name, and its own sums. */
  lemma RowMeaning(clients: seq<Client>, i: nat)
    requires i < |clients|
    ensures |RowsOf(clients)| == |clients|
    ensures RowsOf(clients)[i].mac == Normalized(clients[i].mac) && RowsOf(clients)[i].name == clients[i].name
    ensures RowsOf(clients)[i].bytes.rx == Received(clients[i].usage)
    ensures RowsOf(clients)[i].bytes.tx == Transmitted(clients[i].usage)
  {
    UsageTotals(clients[i].usage);
  }

  /** A report adds up exactly when each client has counters, none of them twice, and a valid address, no two clients have
      the same one, and the sums over all clients, and those of the application list, fit 64 bits. */
  lemma ReportOkIff(r: Report)
    ensures ReportOk(r) <==>
            && (forall i :: 0 <= i < |r.clients| ==>
                  && r.clients[i].usage != [] && NoSameCounter(r.clients[i].usage)
                  && IsClientMac(Normalized(r.clients[i].mac)))
            && (forall i, j :: 0 <= i < j < |r.clients| ==> Normalized(r.clients[i].mac) != Normalized(r.clients[j].mac))
            && Received(AllUsage(r.clients)) <= 0xFFFF_FFFF_FFFF_FFFF && Transmitted(AllUsage(r.clients)) <= 0xFFFF_FFFF_FFFF_FFFF
            && SumOk(r.totals)
  {
    TotalsConserved(r.clients);
    UsageTotals(AllUsage(r.clients));
    forall i | 0 <= i < |r.clients| ensures NoSameCounter(r.clients[i].usage) <==> NoRepeat(r.clients[i].usage, AppKey) {
      SameKeys(r.clients[i].usage);
    }
  }

  lemma SameKeys(usage: seq<App>)
    ensures NoSameCounter(usage) <==> NoRepeat(usage, AppKey)
  {
    assert forall a, b :: AppKey(a) == AppKey(b) <==> SameCounter(a, b);
  }

  /*** Identities ***/

  predicate IsWhitespace(c: char) {
    || '\U{9}' <= c <= '\U{d}' || c == ' ' || c == '\U{85}' || c == '\U{a0}' || c == '\U{1680}'
    || '\U{2000}' <= c <= '\U{200a}' || c == '\U{2028}' || c == '\U{2029}' || c == '\U{202f}' || c == '\U{205f}'
    || c == '\U{3000}'
  }

  function TrimStart(s: string): string {
    if s != "" && IsWhitespace(s[0]) then TrimStart(s[1..]) else s
  }

  function TrimEnd(s: string): string {
    if s != "" && IsWhitespace(s[|s| - 1]) then TrimEnd(s[..|s| - 1]) else s
  }

  function Lower(c: char): char {
    if 'A' <= c <= 'Z' then 'a' + (c - 'A') else c
  }

  function Normalized(mac: string): string {
    var s := TrimEnd(TrimStart(mac));
    seq(|s|, i requires 0 <= i < |s| => Lower(s[i]))
  }

  predicate IsHex(c: char) {
    '0' <= c <= '9' || 'a' <= c <= 'f' || 'A' <= c <= 'F'
  }

  function HexValue(c: char): (n: nat)
    requires IsHex(c)
    ensures n < 16
  {
    if '0' <= c <= '9' then (c - '0') as int
    else if 'a' <= c <= 'f' then (c - 'a') as int + 10
    else (c - 'A') as int + 10
  }

  /** The k-th of six pairs of hexadecimal digits, with a colon after all but the last. */
  predicate OctetOk(v: string, k: nat)
    requires |v| == 17 && k < 6
  {
    IsHex(v[3 * k]) && IsHex(v[3 * k + 1]) && (k < 5 ==> v[3 * k + 2] == ':')
  }

  predicate ZeroOctet(v: string, k: nat)
    requires |v| == 17 && k < 6
  {
    v[3 * k] == '0' && v[3 * k + 1] == '0'
  }

  /** An address of one client: six octets, not a group address, not the all-zero placeholder. */
  predicate IsClientMac(v: string) {
    && |v| == 17
    && (forall k :: 0 <= k < 6 ==> OctetOk(v, k))
    && IsHex(v[1]) && HexValue(v[1]) % 2 == 0
    && exists k :: 0 <= k < 6 && !ZeroOctet(v, k)
  }

  /** The character at a place of an address: a colon after every second digit, else a hexadecimal digit. */
  predicate PlaceOk(v: string, i: nat)
    requires |v| == 17 && i < 17
  {
    if i % 3 == 2 then v[i] == ':' else IsHex(v[i])
  }

  lemma HexDigits(c: char)
    ensures IsHex(c) <==> c in "0123456789abcdefABCDEF"
  {
  }

  lemma OctetPlaces(v: string, k: nat)
    requires |v| == 17 && k < 6
    ensures OctetOk(v, k) <==> PlaceOk(v, 3 * k) && PlaceOk(v, 3 * k + 1) && (k < 5 ==> PlaceOk(v, 3 * k + 2))
  {
    assert 3 * k % 3 == 0 && (3 * k + 1) % 3 == 1 && (3 * k + 2) % 3 == 2;
  }

  lemma PlacesIff(v: string)
    requires |v| == 17
    ensures (forall k :: 0 <= k < 6 ==> OctetOk(v, k)) <==> forall i :: 0 <= i < 17 ==> PlaceOk(v, i)
  {
    forall k | 0 <= k < 6 && forall i :: 0 <= i < 17 ==> PlaceOk(v, i) ensures OctetOk(v, k) {
      OctetPlaces(v, k);
    }
    forall i | 0 <= i < 17 && forall k :: 0 <= k < 6 ==> OctetOk(v, k) ensures PlaceOk(v, i) {
      var k := i / 3;
      assert OctetOk(v, k);
      OctetPlaces(v, k);
    }
  }

  lemma ZeroIff(v: string)
    requires |v| == 17
    ensures (exists k :: 0 <= k < 6 && !ZeroOctet(v, k)) <==> exists i :: 0 <= i < 17 && i % 3 != 2 && v[i] != '0'
  {
    if k :| 0 <= k < 6 && !ZeroOctet(v, k) {
      assert (3 * k) % 3 == 0 && (3 * k + 1) % 3 == 1;
      assert v[3 * k] != '0' || v[3 * k + 1] != '0';
    }
    if i :| 0 <= i < 17 && i % 3 != 2 && v[i] != '0' {
      assert !ZeroOctet(v, i / 3);
    }
  }

  /** Which texts are addresses of one client, character by character. */
  lemma AddressIff(v: string)
    ensures IsClientMac(v) <==>
            && |v| == 17 && (forall i :: 0 <= i < 17 ==> PlaceOk(v, i))
            && EvenHex(v[1]) && (exists i :: 0 <= i < 17 && i % 3 != 2 && v[i] != '0')
  {
    if |v| == 17 {
      PlacesIff(v);
      ZeroIff(v);
      assert PlaceOk(v, 1) <==> IsHex(v[1]);
      if IsHex(v[1]) { EvenDigit(v[1]); }
    }
  }

  /** An even last digit of the first octet: the group bit is clear. */
  predicate EvenHex(c: char) {
    c in "02468aceACE"
  }

  lemma EvenDigit(c: char)
    requires IsHex(c)
    ensures HexValue(c) % 2 == 0 <==> EvenHex(c)
  {
  }

  predicate Blank(s: string) {
    forall i :: 0 <= i < |s| ==> IsWhitespace(s[i])
  }

  lemma {:induction false} TrimStartBlank(blank: string, s: string)
    requires Blank(blank)
    ensures TrimStart(blank + s) == TrimStart(s)
  {
    if blank == "" {
      assert blank + s == s;
    } else {
      assert (blank + s)[1..] == blank[1..] + s;
      TrimStartBlank(blank[1..], s);
    }
  }

  lemma {:induction false} TrimEndBlank(s: string, blank: string)
    requires Blank(blank)
    ensures TrimEnd(s + blank) == TrimEnd(s)
  {
    if blank == "" {
      assert s + blank == s;
    } else {
      var n := |blank| - 1;
      assert (s + blank)[..|s| + n] == s + blank[..n] && (s + blank)[|s| + n] == blank[n];
      TrimEndBlank(s, blank[..n]);
    }
  }

  lemma {:induction false} TrimStartKeeps(s: string, tail: string)
    requires !Blank(s)
    ensures TrimStart(s + tail) == TrimStart(s) + tail
  {
    assert (s + tail)[0] == s[0];
    if IsWhitespace(s[0]) {
      assert (s + tail)[1..] == s[1..] + tail;
      assert !Blank(s[1..]) by {
        var i :| 0 <= i < |s| && !IsWhitespace(s[i]);
        assert s[1..][i - 1] == s[i];
      }
      TrimStartKeeps(s[1..], tail);
    }
  }

  /** Blanks around an address do not make it another client. */
  lemma BlanksIgnored(before: string, mac: string, after: string)
    requires Blank(before) && Blank(after)
    ensures Normalized(before + mac + after) == Normalized(mac)
  {
    assert before + mac + after == before + (mac + after);
    TrimStartBlank(before, mac + after);
    if Blank(mac) {
      TrimStartBlank(mac, after);
      TrimStartBlank(mac, "");
      TrimStartBlank(after, "");
      assert mac + "" == mac && after + "" == after;
    } else {
      TrimStartKeeps(mac, after);
      TrimEndBlank(TrimStart(mac), after);
    }
  }

  /** The texts differ at most in the case of letters. */
  predicate SameButCase(a: string, b: string) {
    |a| == |b| && forall i :: 0 <= i < |a| ==> SameLetter(a[i], b[i])
  }

  predicate SameLetter(a: char, b: char) {
    a == b || ('A' <= a <= 'Z' && b == 'a' + (a - 'A')) || ('A' <= b <= 'Z' && a == 'a' + (b - 'A'))
  }

  lemma {:induction false} TrimStartCase(a: string, b: string)
    requires SameButCase(a, b)
    ensures SameButCase(TrimStart(a), TrimStart(b))
  {
    if a != "" {
      assert SameLetter(a[0], b[0]);
      if IsWhitespace(a[0]) { TrimStartCase(a[1..], b[1..]); }
    }
  }

  lemma {:induction false} TrimEndCase(a: string, b: string)
    requires SameButCase(a, b)
    ensures SameButCase(TrimEnd(a), TrimEnd(b))
  {
    if a != "" {
      var n := |a| - 1;
      assert SameLetter(a[n], b[n]);
      if IsWhitespace(a[n]) { TrimEndCase(a[..n], b[..n]); }
    }
  }

  /** Nor does the case of its letters. */
  lemma CaseIgnored(a: string, b: string)
    requires SameButCase(a, b)
    ensures Normalized(a) == Normalized(b)
  {
    TrimStartCase(a, b);
    TrimEndCase(TrimStart(a), TrimStart(b));
    var s, t := TrimEnd(TrimStart(a)), TrimEnd(TrimStart(b));
    assert forall i :: 0 <= i < |s| ==> SameLetter(s[i], t[i]);
  }

  /** A text in lower case without outer blanks is its own normal form, so nothing else is identified. */
  lemma NormalForm(mac: string)
    requires mac != "" ==> !IsWhitespace(mac[0]) && !IsWhitespace(mac[|mac| - 1])
    requires forall i :: 0 <= i < |mac| ==> !('A' <= mac[i] <= 'Z')
    ensures Normalized(mac) == mac
  {
  }

  /** What splitting at the colon sees of the rest of the text. */
  lemma OctetAtSplit(value: string, k: nat, part: string)
    requires |value| == 17 && k < 6 && part == value[3 * k..]
    ensures OctetOk(value, k) <==> Find(part, ':') == 2 && IsHex(part[0]) && IsHex(part[1])
  {
    assert part[0] == value[3 * k] && part[1] == value[3 * k + 1];
    assert k < 5 ==> part[2] == value[3 * k + 2] && part[2..][0] == part[2];
    assert part[1..][0] == part[1] && part[1..][1..] == part[2..];
    if IsHex(part[0]) && IsHex(part[1]) {
      assert Find(part, ':') == 1 + Find(part[1..], ':');
      assert Find(part[1..], ':') == 1 + Find(part[2..], ':');
    }
  }

  /** The octet loop: at each colon-separated part, two hexadecimal digits are expected. */
  method ValidMac(value: string) returns (ok: bool)
    ensures ok == IsClientMac(value)
  {
    if |value| != 17 { return false; }
    var first := 0;
    var allZero := true;
    for index := 0 to 6
      invariant forall k :: 0 <= k < index ==> OctetOk(value, k)
      invariant index > 0 ==> IsHex(value[1]) && first % 2 == HexValue(value[1]) % 2
      invariant allZero <==> forall k :: 0 <= k < index ==> ZeroOctet(value, k)
    {
      var part := value[3 * index..];
      OctetAtSplit(value, index, part);
      if Find(part, ':') != 2 || !IsHex(part[0]) || !IsHex(part[1]) { return false; }
      var byte := HexValue(part[0]) * 16 + HexValue(part[1]);
      if index == 0 { first := byte; }
      assert byte == 0 <==> ZeroOctet(value, index);
      allZero := allZero && byte == 0;
    }
    return first % 2 == 0 && !allZero;
  }

  /*** Totals ***/

  method Sum(rows: seq<App>) returns (r: Result<Bytes, TotalsError>)
    ensures r.Ok? <==> SumOk(rows)
    ensures r.Ok? ==> r.value == Bytes(Total(rows, AppRx), Total(rows, AppTx))
  {
    var total := Bytes(0, 0);
    var seen: set<(nat, nat)> := {};
    for n := 0 to |rows|
      invariant seen == KeySet(rows[..n], AppKey) && NoRepeat(rows[..n], AppKey)
      invariant total == Bytes(Total(rows[..n], AppRx), Total(rows[..n], AppTx))
      invariant total.rx <= U64_MAX && total.tx <= U64_MAX
    {
      var row := rows[n];
      assert rows[..n + 1] == rows[..n] + [row];
      NoRepeatSnoc(rows[..n], row, AppKey);
      KeySetSnoc(rows[..n], row, AppKey);
      TotalSnoc(rows[..n], row, AppRx);
      TotalSnoc(rows[..n], row, AppTx);
      TotalPrefix(rows, n + 1, AppRx);
      TotalPrefix(rows, n + 1, AppTx);
      if (row.category, row.application) in seen {
        NoRepeatPrefix(rows, n + 1, AppKey);
        return Err(DuplicateCounter);
      }
      seen := seen + {(row.category, row.application)};
      if total.rx + row.received > U64_MAX { return Err(Overflow); }
      if total.tx + row.transmitted > U64_MAX { return Err(Overflow); }
      total := Bytes(total.rx + row.received, total.tx + row.transmitted);
    }
    assert rows[..|rows|] == rows;
    return Ok(total);
  }

  lemma NoRepeatPrefix<T, K>(s: seq<T>, n: nat, key: T -> K)
    requires n <= |s|
    ensures NoRepeat(s, key) ==> NoRepeat(s[..n], key)
  {
  }

  /** The row of one client, unless it has no counters, no valid identity of its own, or counters that
      do not add up. */
  method Admit(c: Client, seen: set<string>) returns (r: Result<ClientRow, TotalsError>)
    ensures r.Ok? <==> ClientOk(c) && Normalized(c.mac) !in seen && RowFits(c)
    ensures r.Ok? ==> r.value == RowOf(c)
  {
    if c.usage == [] { return Err(NoCounters); }
    var mac := Normalized(c.mac);
    var valid := ValidMac(mac);
    if !valid || mac in seen { return Err(BadIdentity); }
    var bytes := Sum(c.usage);
    if bytes.Err? { return Err(bytes.error); }
    return Ok(ClientRow(mac, c.name, bytes.value));
  }

  predicate RowFits(c: Client) {
    Total(c.usage, AppRx) <= U64_MAX && Total(c.usage, AppTx) <= U64_MAX
  }

  /** What the report requires of its first `n` clients. */
  predicate PrefixOk(clients: seq<Client>, n: nat)
    requires n <= |clients|
  {
    && (forall i :: 0 <= i < n ==> ClientOk(clients[i]))
    && NoRepeat(clients[..n], ClientKey)
    && Total(clients[..n], ClientRx) <= U64_MAX && Total(clients[..n], ClientTx) <= U64_MAX
  }

  lemma PrefixStep(clients: seq<Client>, n: nat)
    requires n < |clients| && PrefixOk(clients, n)
    ensures PrefixOk(clients, n + 1) <==>
      && ClientOk(clients[n]) && ClientKey(clients[n]) !in KeySet(clients[..n], ClientKey)
      && Total(clients[..n], ClientRx) + Total(clients[n].usage, AppRx) <= U64_MAX
      && Total(clients[..n], ClientTx) + Total(clients[n].usage, AppTx) <= U64_MAX
  {
    AddKey(clients, n);
    AddCounters(clients, n);
  }

  lemma PrefixOfOk(clients: seq<Client>, n: nat)
    requires n <= |clients| && PrefixOk(clients, |clients|)
    ensures PrefixOk(clients, n)
  {
    assert clients[..|clients|] == clients;
    NoRepeatPrefix(clients, n, ClientKey);
    TotalPrefix(clients, n, ClientRx);
    TotalPrefix(clients, n, ClientTx);
  }

  /** The state of the client loop after `n` clients. */
  ghost predicate Progress(clients: seq<Client>, n: nat, seen: set<string>, rows: seq<ClientRow>, total: Bytes) {
    && n <= |clients| && PrefixOk(clients, n)
    && seen == KeySet(clients[..n], ClientKey)
    && rows == RowsOf(clients[..n])
    && total == Bytes(Total(clients[..n], ClientRx), Total(clients[..n], ClientTx))
  }

  predicate Admissible(c: Client, seen: set<string>, total: Bytes) {
    && ClientOk(c) && Normalized(c.mac) !in seen && RowFits(c)
    && total.rx + Total(c.usage, AppRx) <= U64_MAX && total.tx + Total(c.usage, AppTx) <= U64_MAX
  }

  lemma ProgressNext(clients: seq<Client>, n: nat, seen: set<string>, rows: seq<ClientRow>, total: Bytes)
    requires Progress(clients, n, seen, rows, total) && n < |clients| && Admissible(clients[n], seen, total)
    ensures Progress(clients, n + 1, seen + {Normalized(clients[n].mac)}, rows + [RowOf(clients[n])],
                     Bytes(total.rx + Total(clients[n].usage, AppRx), total.tx + Total(clients[n].usage, AppTx)))
  {
    PrefixStep(clients, n);
    AddKey(clients, n);
    AddCounters(clients, n);
  }

  lemma ProgressStuck(clients: seq<Client>, n: nat, seen: set<string>, rows: seq<ClientRow>, total: Bytes)
    requires Progress(clients, n, seen, rows, total) && n < |clients| && !Admissible(clients[n], seen, total)
    ensures !PrefixOk(clients, |clients|)
  {
    PrefixStep(clients, n);
    if PrefixOk(clients, |clients|) { PrefixOfOk(clients, n + 1); }
  }

  lemma ProgressDone(clients: seq<Client>, seen: set<string>, rows: seq<ClientRow>, total: Bytes)
    requires Progress(clients, |clients|, seen, rows, total)
    ensures PrefixOk(clients, |clients|) && rows == RowsOf(clients)
    ensures total == Bytes(Total(clients, ClientRx), Total(clients, ClientTx))
  {
    assert clients[..|clients|] == clients;
  }

  /** Admits a client and adds its bytes to the total. */
  method AddClient(c: Client, seen: set<string>, total: Bytes) returns (r: Result<(ClientRow, Bytes), TotalsError>)
    ensures r.Ok? <==> Admissible(c, seen, total)
    ensures r.Ok? ==> r.value == (RowOf(c), Bytes(total.rx + Total(c.usage, AppRx), total.tx + Total(c.usage, AppTx)))
  {
    var row := Admit(c, seen);
    if row.Err? { return Err(row.error); }
    if total.rx + row.value.bytes.rx > U64_MAX { return Err(Overflow); }
    if total.tx + row.value.bytes.tx > U64_MAX { return Err(Overflow); }
    return Ok((row.value, Bytes(total.rx + row.value.bytes.rx, total.tx + row.value.bytes.tx)));
  }

  /** The next client of the loop: its row and the new total, unless the report cannot add up. */
  method NextClient(clients: seq<Client>, n: nat, seen: set<string>, ghost rows: seq<ClientRow>, total: Bytes)
    returns (r: Result<(ClientRow, Bytes), TotalsError>)
    requires Progress(clients, n, seen, rows, total) && n < |clients|
    ensures r.Ok? ==> Progress(clients, n + 1, seen + {r.value.0.mac}, rows + [r.value.0], r.value.1)
    ensures r.Err? ==> !PrefixOk(clients, |clients|)
  {
    r := AddClient(clients[n], seen, total);
    if r.Ok? {
      ProgressNext(clients, n, seen, rows, total);
    } else {
      ProgressStuck(clients, n, seen, rows, total);
    }
  }

  /** The rows and the total of the clients of a report. */
  method ClientTotals(clients: seq<Client>) returns (r: Result<(seq<ClientRow>, Bytes), TotalsError>)
    ensures r.Ok? <==> PrefixOk(clients, |clients|)
    ensures r.Ok? ==> r.value == (RowsOf(clients), Bytes(Total(clients, ClientRx), Total(clients, ClientTx)))
  {
    var seen: set<string> := {};
    var rows: seq<ClientRow> := [];
    var total := Bytes(0, 0);
    for n := 0 to |clients|
      invariant Progress(clients, n, seen, rows, total)
    {
      var added := NextClient(clients, n, seen, rows, total);
      if added.Err? { return Err(added.error); }
      seen := seen + {added.value.0.mac};
      rows := rows + [added.value.0];
      total := added.value.1;
    }
    ProgressDone(clients, seen, rows, total);
    return Ok((rows, total));
  }

  /** The checked totals of a report. They exist exactly when the report adds up, and then they are
      the mathematical sums. */
  method Totals(report: Report) returns (r: Result<(seq<ClientRow>, Bytes, Bytes), TotalsError>)
    ensures r.Ok? <==> ReportOk(report)
    ensures r.Ok? ==>
              && r.value.0 == RowsOf(report.clients)
              && r.value.1.rx == Received(AllUsage(report.clients)) && r.value.1.tx == Transmitted(AllUsage(report.clients))
              && r.value.2.rx == Received(report.totals) && r.value.2.tx == Transmitted(report.totals)
  {
    TotalsConserved(report.clients);
    UsageTotals(AllUsage(report.clients));
    UsageTotals(report.totals);
    var clients := ClientTotals(report.clients);
    assert report.clients[..|report.clients|] == report.clients;
    if clients.Err? { return Err(clients.error); }
    var applications := Sum(report.totals);
    if applications.Err? { return Err(applications.error); }
    return Ok((clients.value.0, clients.value.1, applications.value));
  }

  /** One more client: its key. */
  lemma AddKey(clients: seq<Client>, n: nat)
    requires n < |clients|
    ensures NoRepeat(clients[..n + 1], ClientKey)
       <==> NoRepeat(clients[..n], ClientKey) && ClientKey(clients[n]) !in KeySet(clients[..n], ClientKey)
    ensures KeySet(clients[..n + 1], ClientKey) == KeySet(clients[..n], ClientKey) + {ClientKey(clients[n])}
  {
    assert clients[..n + 1] == clients[..n] + [clients[n]];
    NoRepeatSnoc(clients[..n], clients[n], ClientKey);
    KeySetSnoc(clients[..n], clients[n], ClientKey);
  }

  /** One more client: its row and its counters. */
  lemma AddCounters(clients: seq<Client>, n: nat)
    requires n < |clients|
    ensures RowsOf(clients[..n + 1]) == RowsOf(clients[..n]) + [RowOf(clients[n])]
    ensures Total(clients[..n + 1], ClientRx) == Total(clients[..n], ClientRx) + Total(clients[n].usage, AppRx)
    ensures Total(clients[..n + 1], ClientTx) == Total(clients[..n], ClientTx) + Total(clients[n].usage, AppTx)
  {
    assert clients[..n + 1] == clients[..n] + [clients[n]];
    TotalSnoc(clients[..n], clients[n], ClientRx);
    TotalSnoc(clients[..n], clients[n], ClientTx);
  }

  /*** Conservation ***/

  function AllUsage(clients: seq<Client>): seq<App> {
    if clients == [] then [] else clients[0].usage + AllUsage(clients[1..])
  }

  /** Nothing is counted twice or lost: the client total is the sum of the returned rows and the sum of
      all nested counters. */
  lemma {:induction false} TotalsConserved(clients: seq<Client>)
    ensures Total(clients, ClientRx) == Total(RowsOf(clients), RowRx) == Total(AllUsage(clients), AppRx)
    ensures Total(clients, ClientTx) == Total(RowsOf(clients), RowTx) == Total(AllUsage(clients), AppTx)
  {
    if clients != [] {
      TotalsConserved(clients[1..]);
      TotalConcat(clients[0].usage, AllUsage(clients[1..]), AppRx);
      TotalConcat(clients[0].usage, AllUsage(clients[1..]), AppTx);
      assert RowsOf(clients)[1..] == RowsOf(clients[1..]);
    }
  }

  /** Reordering clients or the application list changes neither acceptance nor any total. */
  lemma OrderIndependent(a: Report, b: Report)
    requires Permuted(a.clients, b.clients) && Permuted(a.totals, b.totals)
    ensures ReportOk(a) <==> ReportOk(b)
    ensures Total(a.clients, ClientRx) == Total(b.clients, ClientRx) && Total(a.clients, ClientTx) == Total(b.clients, ClientTx)
    ensures Total(a.totals, AppRx) == Total(b.totals, AppRx) && Total(a.totals, AppTx) == Total(b.totals, AppTx)
  {
    TotalPermuted(a.clients, b.clients, ClientRx);
    TotalPermuted(a.clients, b.clients, ClientTx);
    TotalPermuted(a.totals, b.totals, AppRx);
    TotalPermuted(a.totals, b.totals, AppTx);
    NoRepeatPermuted(a.clients, b.clients, ClientKey);
    NoRepeatPermuted(a.totals, b.totals, AppKey);
    ClientsOkPermuted(a.clients, b.clients);
    ClientsOkPermuted(b.clients, a.clients);
  }

  lemma ClientsOkPermuted(a: seq<Client>, b: seq<Client>)
    requires Permuted(a, b)
    ensures (forall i :: 0 <= i < |a| ==> ClientOk(a[i])) ==> forall i :: 0 <= i < |b| ==> ClientOk(b[i])
  {
    PermutedMembers(a, b);
    forall i | 0 <= i < |b| && (forall k :: 0 <= k < |a| ==> ClientOk(a[k])) ensures ClientOk(b[i]) {
      assert b[i] in a;
    }
  }

  /** Reordering the counters of one client changes neither its validity nor its row. */
  lemma UsageOrderIndependent(c: Client, usage: seq<App>)
    requires Permuted(c.usage, usage)
    ensures ClientOk(c) <==> ClientOk(c.(usage := usage))
    ensures RowOf(c) == RowOf(c.(usage := usage))
  {
    TotalPermuted(c.usage, usage, AppRx);
    TotalPermuted(c.usage, usage, AppTx);
    NoRepeatPermuted(c.usage, usage, AppKey);
    PermutedMembers(c.usage, usage);
  }
}
