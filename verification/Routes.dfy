/** Routes as the gateway's admin API and its store hold them. */
module Routes {

  /** One upstream of a route. `host` may carry a port, `pathPrefix` is put before the
      request path, `oauth` says that a token must be fetched before each request. */
  datatype Backend = Backend(host: string, weight: int, scheme: string, pathPrefix: string, oauth: bool)

  datatype Route = Route(name: string, hostnames: seq<string>, backends: seq<Backend>)

  /** The weights of a backend list, in order. */
  function Weights(bs: seq<Backend>): (ws: seq<int>)
    ensures |ws| == |bs|
    ensures forall i | 0 <= i < |bs| :: ws[i] == bs[i].weight
  {
    seq(|bs|, i requires 0 <= i < |bs| => bs[i].weight)
  }
}
