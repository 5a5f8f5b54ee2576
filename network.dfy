/** The HTTP side of a run: `urllib.request.urlopen(url).read()` answered
    from a fixed table of responses, with a log of the URLs asked for. */
module Network {
  import opened FileSystem

  class Web {
    /** The body each URL returns; `None` where `urlopen` raises. */
    const responses: string -> Option<Bytes>
    /** Every URL requested so far, in order. */
    var requested: seq<string>

    constructor (responses: string -> Option<Bytes>)
      ensures this.responses == responses && requested == []
    {
      this.responses := responses;
      requested := [];
    }

    /** `urllib.request.urlopen(url).read()`. */
    method UrlOpen(url: string) returns (body: Option<Bytes>)
      modifies this
      ensures body == responses(url)
      ensures requested == old(requested) + [url]
    {
      body := responses(url);
      requested := requested + [url];
    }
  }
}
