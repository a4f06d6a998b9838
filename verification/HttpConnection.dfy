/** A connection: requests arriving in any pieces at the parser object. */
module HttpConnection {
  import opened HttpSyntax
  import opened HttpStep
  import opened HttpInvariant
  import opened HttpCallbacks
  import opened HttpExecute
  import opened HttpSegments
  import opened HttpRequest

  /** However a sequence of requests is cut into buffers, the callbacks of all calls together
      report exactly these requests, every byte is used, and the parser is ready for the next
      request, or closed when the last one said so. */
  method Receive(parser: HttpParser, bufs: seq<seq<Byte>>, ghost rs: seq<Request>)
    returns (total: nat, logs: seq<seq<Callback>>)
    requires Inv(parser.View()) && !parser.upgrade && parser.state.StartReq? && parser.errno == Ok
    requires forall k | 0 <= k < |bufs| :: bufs[k] != []
    requires Concat(bufs) == BuildAll(rs) && Pipelined(parser.nread, rs)
    modifies parser
    ensures LogsIn(logs, bufs) && FlatAll(logs, bufs) == EventsAll(rs) && total == |BuildAll(rs)|
    ensures parser.errno == Ok && parser.nread == Counted(old(parser.nread), rs) && Inv(parser.View())
    ensures rs == [] || KeepsAlive(rs[|rs| - 1]) ==> parser.state.StartReq?
  {
    hide Run, Inv, LogsIn, FlatAll, EventsAll, BuildAll, Pipelined, KeepsAlive;
    ghost var p := parser.View();
    PipelineRoundTrip(p, rs);
    RunInv(p, BuildAll(rs));
    ghost var lost;
    total, logs, lost := ExecuteAll(parser, bufs);
    assert FlatAll(logs, bufs) + [] == FlatAll(logs, bufs);
  }
}
