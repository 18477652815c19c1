/** Host names with an optional port. */
module Hosts {

  /** The part of a host before its first colon. */
  function ExtractHost(h: string): (r: string)
    ensures r <= h && ':' !in r
    ensures r == h <==> ':' !in h
    ensures |r| < |h| ==> h[|r|] == ':'
  {
    if h == "" || h[0] == ':' then "" else [h[0]] + ExtractHost(h[1..])
  }

  /** Whatever follows the first colon is dropped. */
  lemma {:induction false} ExtractHostDropsPort(name: string, port: string)
    requires ':' !in name
    ensures ExtractHost(name + ":" + port) == name
  {
    if name == "" {
      assert (name + ":" + port)[0] == ':';
    } else {
      ExtractHostDropsPort(name[1..], port);
      assert (name + ":" + port)[1..] == name[1..] + ":" + port;
      assert (name + ":" + port)[0] == name[0];
      assert name[0] in name;
    }
  }
}
