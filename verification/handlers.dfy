/**
  The request-level rules of the HTTP handlers: the paging parameters of the history
  listing and the single-flight check of the manual trigger. Routing, rendering and the
  database query itself are outside the model.
 */
module Handlers {
  import opened Decimal
  import opened Config
  import opened Models
  import opened Orchestrator

  /** A request's query string, by parameter name. */
  type Query = map<string, string>

  const DefaultPage: int := 1
  const DefaultPageSize: int := 20
  const MaxPageSize: int := 100

  /** A present parameter is used even when empty; only a missing one takes the default. */
  function DefaultQuery(q: Query, key: string, default: string): (v: string)
    ensures key in q ==> v == q[key]
    ensures key !in q ==> v == default
  {
    if key in q then q[key] else default
  }

  /** Setting a parameter makes it the value read; removing it brings back the default. */
  lemma DefaultQuerySetRemove(q: Query, key: string, value: string, default: string)
    ensures DefaultQuery(q[key := value], key, default) == value
    ensures DefaultQuery(q - {key}, key, default) == default
  {
  }

  /** Pages are numbered from 1; anything lower means the first page. */
  function NormalizePage(page: int): (p: int)
    ensures p >= 1
    ensures page >= 1 <==> p == page
    ensures page < 1 ==> p == DefaultPage
  {
    if page < 1 then DefaultPage else page
  }

  /** A page size outside 1..100 is replaced by the default size, not clamped to the nearest bound. */
  function NormalizePageSize(size: int): (n: int)
    ensures 1 <= n <= MaxPageSize
    ensures 1 <= size <= MaxPageSize ==> n == size
    ensures !(1 <= size <= MaxPageSize) ==> n == DefaultPageSize
  {
    if size < 1 || size > MaxPageSize then DefaultPageSize else size
  }

  /** Normalizing twice changes nothing more than normalizing once. */
  lemma NormalizeIdempotent(page: int, size: int)
    ensures NormalizePage(NormalizePage(page)) == NormalizePage(page)
    ensures NormalizePageSize(NormalizePageSize(size)) == NormalizePageSize(size)
  {
  }

  /** An oversized page size falls back to 20 rather than to the maximum. */
  lemma OversizedPageSizeResets(size: int)
    requires size > MaxPageSize
    ensures NormalizePageSize(size) == DefaultPageSize
    ensures NormalizePageSize(size) != MaxPageSize
  {
  }

  /**
    The row offset as the handler computes it: a product of two 64-bit integers, which wraps
    around. `page - 1` itself cannot overflow because the page is at least 1.
   */
  function OffsetAsWritten(page: int, pageSize: int): (o: int)
    requires 1 <= page <= MaxInt64 && 1 <= pageSize <= MaxPageSize
    ensures IsInt64(o)
    ensures Congruent64(o, (page - 1) * pageSize)
    ensures IsInt64((page - 1) * pageSize) ==> o == (page - 1) * pageSize
  {
    Wrap64((page - 1) * pageSize)
  }

  /** The largest page with the largest page size wraps the offset to a negative number. */
  lemma OffsetAsWrittenGoesNegative()
    ensures OffsetAsWritten(MaxInt64, MaxPageSize) == -200
  {
    assert (MaxInt64 - 1) * MaxPageSize == 922337203685477580600;
    assert Wrap64(922337203685477580600) == -200;
  }

  /** Dividing a multiple of `s` by `s` is exact and gives back the multiplier. */
  lemma {:induction false} MultipleDivides(k: int, s: int)
    requires k >= 0 && s >= 1
    ensures k * s >= 0 && (k * s) % s == 0 && (k * s) / s == k
  {
    var q, r := (k * s) / s, (k * s) % s;
    assert k * s == s * q + r && 0 <= r < s;
    assert s * (k - q) == r;
    if k - q >= 1 {
      assert false;
    } else if k - q <= -1 {
      assert false;
    }
  }

  /** The row offset of a page: every earlier page's rows are skipped, and never a negative number of them. */
  function Offset(page: int, pageSize: int): (o: nat)
    requires page >= 1 && pageSize >= 1
    ensures o % pageSize == 0 && o / pageSize == page - 1
  {
    MultipleDivides(page - 1, pageSize);
    (page - 1) * pageSize
  }

  /** Where the 64-bit product does not overflow, the handler's offset is the intended one. */
  lemma OffsetAgrees(page: int, pageSize: int)
    requires 1 <= page <= MaxInt64 && 1 <= pageSize <= MaxPageSize
    ensures (page - 1) * pageSize <= MaxInt64 ==> OffsetAsWritten(page, pageSize) == Offset(page, pageSize)
  {
  }

  /** The paging of one history request, as the response echoes it and the query uses it. */
  datatype Paging = Paging(page: int, pageSize: int, offset: nat)

  /** `GetBackups`, without the query: read and normalize the page and page size, and compute the offset. */
  function GetBackups(q: Query): (r: Paging)
    ensures r.page >= 1 && 1 <= r.pageSize <= MaxPageSize && IsInt64(r.page)
    ensures r.page == NormalizePage(Atoi(DefaultQuery(q, "page", "1")))
    ensures r.pageSize == NormalizePageSize(Atoi(DefaultQuery(q, "page_size", "20")))
    ensures r.offset == Offset(r.page, r.pageSize)
  {
    var page := NormalizePage(Atoi(DefaultQuery(q, "page", "1")));
    var pageSize := NormalizePageSize(Atoi(DefaultQuery(q, "page_size", "20")));
    Paging(page, pageSize, Offset(page, pageSize))
  }

  /** `GetBackups` as written: the same normalization, with the offset computed in 64-bit arithmetic. */
  function GetBackupsAsWritten(q: Query): (r: (int, int, int))
    ensures r.0 == GetBackups(q).page && r.1 == GetBackups(q).pageSize
    ensures IsInt64(r.2)
    ensures Congruent64(r.2, (r.0 - 1) * r.1)
    ensures (r.0 - 1) * r.1 <= MaxInt64 ==> r.2 == GetBackups(q).offset
  {
    var g := GetBackups(q);
    OffsetAgrees(g.page, g.pageSize);
    (g.page, g.pageSize, OffsetAsWritten(g.page, g.pageSize))
  }

  /** The query `?page=9223372036854775807&page_size=100` makes the handler skip a negative number of rows. */
  lemma NegativeOffsetAsWritten(page: int, pageSize: int)
    requires page == MaxInt64 && pageSize == MaxPageSize
    ensures GetBackupsAsWritten(map["page" := Itoa(page), "page_size" := Itoa(pageSize)]).2 == -200
    ensures GetBackups(map["page" := Itoa(page), "page_size" := Itoa(pageSize)]).offset > 0
  {
    GetBackupsEchoes(page, pageSize);
    OffsetAsWrittenGoesNegative();
  }

  /** A request for a valid page and page size gets exactly those echoed back. */
  lemma GetBackupsEchoes(page: int, pageSize: int)
    requires 1 <= page <= MaxInt64 && 1 <= pageSize <= MaxPageSize
    ensures var r := GetBackups(map["page" := Itoa(page), "page_size" := Itoa(pageSize)]);
            r.page == page && r.pageSize == pageSize && r.offset / pageSize == page - 1
  {
    ItoaAtoi(page);
    ItoaAtoi(pageSize);
  }

  /**
    A page number and page size that `strconv.Atoi` refuses (`5x`, `1.5`, empty) fall back to
    the first page and the default size.
   */
  lemma GetBackupsRejectsText(q: Query)
    requires "page" in q && NotANumber(q["page"])
    requires "page_size" in q && NotANumber(q["page_size"])
    ensures GetBackups(q) == Paging(1, DefaultPageSize, 0)
  {
    AtoiRejectsText(q["page"]);
    AtoiRejectsText(q["page_size"]);
  }

  /** `?page=5x&page_size=1.5` lists the first page with 20 rows. */
  lemma ExampleTrailingText()
    ensures GetBackups(map["page" := "5x", "page_size" := "1.5"]) == Paging(1, DefaultPageSize, 0)
  {
    assert SyntaxErrorAt("5x", 1);
    assert SyntaxErrorAt("1.5", 1);
    GetBackupsRejectsText(map["page" := "5x", "page_size" := "1.5"]);
  }

  /** An HTTP response: status code and the single field of its JSON body. */
  datatype Response = Response(code: int, field: string, text: string)

  const StatusOK: int := 200
  const StatusConflict: int := 409

  /** What the trigger endpoint did: its response, and whether it launched a run in the background. */
  datatype Trigger = Trigger(response: Response, launched: bool)

  /** `TriggerBackup`: refuse with a conflict while a run is in progress; otherwise launch one and answer at once. */
  function TriggerBackup(s: State): (t: Trigger)
    ensures t.launched <==> !IsBackupRunning(s)
    ensures t.response.code == StatusConflict <==> IsBackupRunning(s)
    ensures t.response.code == StatusOK <==> t.launched
    ensures IsBackupRunning(s) ==> t.response == Response(StatusConflict, "error", "Backup is already running")
    ensures !IsBackupRunning(s) ==> t.response == Response(StatusOK, "message", "Backup started")
  {
    if IsBackupRunning(s) then Trigger(Response(StatusConflict, "error", "Backup is already running"), false)
    else Trigger(Response(StatusOK, "message", "Backup started"), true)
  }

  /** The run the trigger launches is accepted by the orchestrator; a refused trigger matches a refused run. */
  lemma TriggerAgreesWithExecute(s: State, cfg: Config, w: World)
    requires Valid(s.store) && OrderFits(cfg, w)
    ensures TriggerBackup(s).launched <==> ExecuteBackup(s, cfg, w).1.Completed?
    ensures !TriggerBackup(s).launched ==> ExecuteBackup(s, cfg, w) == (s, Rejected)
  {
  }
}
