/** What the handlers see of an upstream HTTP call. The call itself, the
    reading of the body and `JSON.parse` are outside the model: their
    outcomes are given. */
module Upstream {
  import opened Wrappers
  import opened Text

  /** The outcome of one `fetch`: it threw (carrying the thrown error as a
      string), or it gave a status, the body text, and what `JSON.parse`
      (plus the handler's projection of the parsed value) made of it. */
  datatype Fetched<T> =
    | NetworkError(message: string)
    | Received(status: nat, text: string, json: Result<T, string>)

  /** `response.ok`: the status is in the 2xx class. */
  function IsOk(status: nat): (ok: bool)
    ensures ok <==> status / 100 == 2
  {
    200 <= status <= 299
  }

  /** Longest body excerpt an error message may carry. */
  const ExcerptLength: nat := 200

  /** `text.slice(0, 200)`: the start of the body, at most 200 characters. */
  function Excerpt(text: string): (r: string)
    ensures |r| <= ExcerptLength && r <= text
    ensures |text| <= ExcerptLength ==> r == text
    ensures |r| == if |text| <= ExcerptLength then |text| else ExcerptLength
  {
    Prefix(text, ExcerptLength)
  }
}
