/** Offset paging of the network list: what the validation of one page guarantees, and what following
    the reported offsets returns. */
module NetworkPages {
  import opened Common

  const I32_MAX: nat := 0x7FFF_FFFF
  const MAXIMUM_INTEGRATION_LIMIT: nat := 200

  /** A controller's page: its metadata and its rows. */
  datatype Page<T> = Page(offset: nat, limit: nat, count: nat, total: nat, data: seq<T>)

  datatype Listed<T> = Listed(data: seq<T>, next: Option<nat>)

  datatype ListError = InvalidRequest | OffsetOverflow | Contradiction

  function IntegrationLimit(requested: nat): nat {
    Min(requested, MAXIMUM_INTEGRATION_LIMIT)
  }

  predicate Consistent<T>(offset: nat, limit: nat, page: Page<T>) {
    && page.offset == offset
    && 0 < page.limit <= IntegrationLimit(limit)
    && |page.data| <= page.limit
    && page.count == |page.data|
    && (|page.data| > 0 ==> page.offset + |page.data| <= page.total)
    && (|page.data| == 0 ==> page.offset >= page.total)
  }

  /** One call: the request is checked, then the page against the request and against itself. */
  function List<T>(offset: nat, limit: nat, page: Page<T>): Result<Listed<T>, ListError> {
    if offset > I32_MAX || limit == 0 then Err(InvalidRequest)
    else if page.offset + |page.data| > U64_MAX then Err(OffsetOverflow)
    else if !Consistent(offset, limit, page) then Err(Contradiction)
    else
      var next := page.offset + |page.data|;
      Ok(Listed(page.data, if next < page.total then Some(next) else None))
  }

  /** Which calls are refused, and how: a request outside the bounds; a sum of offset and rows beyond 64 bits; and any
      page that does not answer the request, or whose numbers do not fit its rows. */
  lemma ListRefusedIff<T>(offset: nat, limit: nat, page: Page<T>)
    ensures var r := List(offset, limit, page);
            var rows := |page.data|;
            && (r == Err(InvalidRequest) <==> offset > 2_147_483_647 || limit == 0)
            && (r == Err(OffsetOverflow) <==>
                  offset <= 2_147_483_647 && limit > 0 && page.offset + rows > 0xFFFF_FFFF_FFFF_FFFF)
            && (r.Ok? <==>
                  && offset <= 2_147_483_647 && limit > 0
                  && page.offset == offset && page.offset + rows <= 0xFFFF_FFFF_FFFF_FFFF
                  && 1 <= page.limit <= 200 && page.limit <= limit
                  && page.count == rows <= page.limit
                  && (if rows == 0 then page.total <= offset else offset + rows <= page.total))
            && (r.Ok? ==> r.value.data == page.data)
  {
  }

  /** For every page that passes the checks, whoever sent it, a reported next offset is just past the
      returned rows, strictly above the requested one and below the total. */
  lemma NextOffsetAdvances<T>(offset: nat, limit: nat, page: Page<T>)
    ensures var r := List(offset, limit, page);
            r.Ok? ==>
              && |r.value.data| <= IntegrationLimit(limit)
              && (r.value.next.Some? ==>
                    offset < r.value.next.value == offset + |r.value.data| < page.total)
              && (r.value.next.None? ==> offset + |r.value.data| >= page.total)
  {
  }

  /*** Following the offsets over a fixed list ***/

  /** An honest controller over a fixed list; it chooses how many rows each page holds. */
  function Respond<T>(records: seq<T>, size: nat -> nat, limit: nat, offset: nat): Page<T> {
    var rows := if offset >= |records| then [] else records[offset..Min(|records|, offset + size(offset))];
    Page(offset, IntegrationLimit(limit), |rows|, |records|, rows)
  }

  ghost predicate Honest(size: nat -> nat, limit: nat) {
    forall offset: nat :: 1 <= size(offset) <= IntegrationLimit(limit)
  }

  function Walk<T>(records: seq<T>, size: nat -> nat, limit: nat, offset: nat): Result<seq<T>, ListError>
    decreases |records| - offset
  {
    var r := List(offset, limit, Respond(records, size, limit, offset));
    if r.Err? then Err(r.error)
    else if r.value.next.None? then Ok(r.value.data)
    else
      var rest := Walk(records, size, limit, r.value.next.value);
      if rest.Err? then rest else Ok(r.value.data + rest.value)
  }

  function Pages<T>(records: seq<T>, size: nat -> nat, limit: nat, offset: nat): nat
    decreases |records| - offset
  {
    var r := List(offset, limit, Respond(records, size, limit, offset));
    if r.Err? || r.value.next.None? then 1 else 1 + Pages(records, size, limit, r.value.next.value)
  }

  lemma RespondConsistent<T>(records: seq<T>, size: nat -> nat, limit: nat, offset: nat)
    requires Honest(size, limit)
    ensures Consistent(offset, limit, Respond(records, size, limit, offset))
    ensures offset <= |records| ==>
              Respond(records, size, limit, offset).data == records[offset..Min(|records|, offset + size(offset))]
  {
    assert 1 <= size(offset) <= IntegrationLimit(limit);
  }

  /** A walk that is not refused returns the rest of the list, each record once and in order, within
      as many pages as there are records left. */
  lemma {:induction false} WalkReturnsList<T>(records: seq<T>, size: nat -> nat, limit: nat, offset: nat)
    requires Honest(size, limit) && |records| <= U64_MAX && offset <= |records|
    ensures var r := Walk(records, size, limit, offset); r.Ok? ==> r.value == records[offset..]
    ensures Pages(records, size, limit, offset) <= Max(1, |records| - offset)
    decreases |records| - offset
  {
    RespondConsistent(records, size, limit, offset);
    var r := List(offset, limit, Respond(records, size, limit, offset));
    if r.Ok? && r.value.next.Some? {
      var next := r.value.next.value;
      WalkReturnsList(records, size, limit, next);
      assert records[offset..] == records[offset..next] + records[next..];
    }
  }

  /** Every offset of a list of at most 2^31 records is one the next call accepts. */
  lemma {:induction false} ShortListAccepted<T>(records: seq<T>, size: nat -> nat, limit: nat, offset: nat)
    requires Honest(size, limit) && limit > 0 && |records| <= I32_MAX + 1
    requires offset < |records| || offset == 0
    ensures Walk(records, size, limit, offset).Ok?
    decreases |records| - offset
  {
    RespondConsistent(records, size, limit, offset);
    var r := List(offset, limit, Respond(records, size, limit, offset));
    if r.value.next.Some? {
      ShortListAccepted(records, size, limit, r.value.next.value);
    }
  }

  /** With one row to a page, a longer list leads to an offset that the next call refuses. */
  lemma {:induction false} LongListRefused<T>(records: seq<T>, limit: nat, offset: nat)
    requires limit > 0 && I32_MAX + 1 < |records| <= U64_MAX && offset <= I32_MAX + 1
    ensures Walk(records, (_: nat) => 1, limit, offset).Err?
    decreases |records| - offset
  {
    if offset <= I32_MAX {
      RespondConsistent(records, (_: nat) => 1, limit, offset);
      LongListRefused(records, limit, offset + 1);
    }
  }

  /** The page walk, exactly: from offset 0 it returns the whole list, for every honest choice of page
      sizes, if and only if the list has at most 2^31 records. */
  lemma WalkCompleteIff<T(!new)>(records: seq<T>, limit: nat)
    requires limit > 0 && |records| <= U64_MAX
    ensures |records| <= I32_MAX + 1 <==>
            forall size: nat -> nat :: Honest(size, limit) ==> Walk(records, size, limit, 0) == Ok(records)
  {
    if |records| <= I32_MAX + 1 {
      forall size: nat -> nat | Honest(size, limit) ensures Walk(records, size, limit, 0) == Ok(records) {
        ShortListAccepted(records, size, limit, 0);
        WalkReturnsList(records, size, limit, 0);
        assert records[0..] == records;
      }
    } else {
      var one := (_: nat) => 1;
      assert Honest(one, limit);
      LongListRefused(records, limit, 0);
      assert Walk(records, one, limit, 0).Err?;
    }
  }
}
