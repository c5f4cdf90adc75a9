/** The command-history route: `GET` with an optional `limit` query value,
  * answered with the listed entries, their number and the limit as read. */
module CommandLogController {
  import opened Wrappers
  import opened JsValues
  import opened HttpReplies
  import opened CommandLogService

  const ListFailedMessage := "Erro ao consultar historico de comandos."
  const DefaultLimit := 20
  const MaxLimit := 200

  /** `parseLimit`: 20 unless the value reads as a positive finite number;
    * otherwise that number truncated, at most 200. */
  function ParseLimit(v: JsValue): (n: nat)
    ensures n <= MaxLimit
    ensures !(NumberOf(v).Finite? && NumberOf(v).r > 0.0) ==> n == DefaultLimit
    ensures NumberOf(v).Finite? && NumberOf(v).r > 0.0 ==>
      (n as real <= NumberOf(v).r < n as real + 1.0 || (n == MaxLimit && NumberOf(v).r >= MaxLimit as real))
  {
    var parsed := NumberOf(v);
    if !parsed.Finite? || parsed.r <= 0.0 then DefaultLimit
    else
      var t := Trunc(parsed.r);
      if t < MaxLimit then t else MaxLimit
  }

  /** The cap the service applies to the route's limit: the limit itself,
    * except that a value between 0 and 1 reads as 0 in the route and is
    * then taken by the service as its default of 20. */
  lemma ServiceCap(v: JsValue)
    ensures var n := ParseLimit(v);
      CappedLimit(Finite(n as real)) == if n == 0 then DefaultLimit else n
    ensures var p := NumberOf(v);
      p.Finite? && 0.0 < p.r < 1.0 ==> ParseLimit(v) == 0
  {
  }

  datatype LogsReply = LogsReply(total: nat, limit: nat, logs: seq<JsValue>)

  /** `listCommandLogsController`: the listing for the parsed limit, with
    * its length as `total`; an error reading the directory is a 500. */
  method ListCommandLogsControl(log: CommandLog, queryLimit: JsValue) returns (resp: Response<LogsReply>)
    modifies log
    ensures log.fault.Some? ==> resp == ServerError(ListFailedMessage, log.fault.value) && log.files == old(log.files)
    ensures log.fault.None? ==> log.files == Pruned(old(log.files), log.retention)
    ensures log.fault.None? ==> (resp.Success? && resp.status == 200
      && resp.data.limit == ParseLimit(queryLimit) && resp.data.total == |resp.data.logs|
      && resp.data.logs == Listing(log.files, CappedLimit(Finite(ParseLimit(queryLimit) as real))))
  {
    var limit := ParseLimit(queryLimit);
    var logs := log.ListCommandLogs(Finite(limit as real));
    match logs {
      case Err(message) => resp := ServerError(ListFailedMessage, message);
      case Ok(entries) => resp := OkResponse(LogsReply(|entries|, limit, entries));
    }
  }
}
