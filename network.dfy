/**
 * HTTP GET through `axios`, as an oracle: the replies the server will give are fixed in
 * advance, in order, and every request made is recorded. A request made after the
 * scripted replies run out fails.
 */
module Network {

  datatype Request = Request(url: string, headers: map<string, string>)

  /** A response body, or any failure (network error, non-2xx status). */
  datatype Reply = Body(data: string) | Failure

  /** The reply the next request receives. */
  function Next(replies: seq<Reply>): Reply
  {
    if replies == [] then Failure else replies[0]
  }

  /** The replies left after one request. */
  function Later(replies: seq<Reply>): (r: seq<Reply>)
    ensures |r| == if replies == [] then 0 else |replies| - 1
    ensures replies != [] ==> replies == [Next(replies)] + r
  {
    if replies == [] then [] else replies[1..]
  }

  class Network {
    var replies: seq<Reply>
    var log: seq<Request>

    constructor (script: seq<Reply>)
      ensures replies == script && log == []
    {
      replies := script;
      log := [];
    }

    /** `axios.get(url, { headers })`. */
    method Get(url: string, headers: map<string, string>) returns (reply: Reply)
      modifies this
      ensures reply == Next(old(replies))
      ensures replies == Later(old(replies))
      ensures log == old(log) + [Request(url, headers)]
    {
      reply := Next(replies);
      replies := Later(replies);
      log := log + [Request(url, headers)];
    }
  }
}
