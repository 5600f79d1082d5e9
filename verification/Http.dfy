/** What a client reads of the body of an HTTP response. */
module Http {
  import opened Bytes

  /** One read: data, nothing yet, an error or too long a silence, or the end of the body. */
  datatype HttpRead = Chunk(bytes: seq<Byte>) | Stall | Broken | BodyEnd

  /** The body that is handed over before it ends, one way or the other. */
  function Body(responses: seq<HttpRead>): seq<Byte> {
    if responses == [] || responses[0].Broken? || responses[0].BodyEnd? then []
    else (if responses[0].Chunk? then responses[0].bytes else []) + Body(responses[1..])
  }

  /** The body comes to its end without an error. */
  predicate Completes(responses: seq<HttpRead>) {
    responses != [] && !responses[0].Broken? && (responses[0].BodyEnd? || Completes(responses[1..]))
  }

  lemma BodyStep(responses: seq<HttpRead>, i: nat)
    requires i < |responses|
    ensures var r, later := responses[i], responses[i + 1..];
            && Body(responses[i..]) == (if r.Broken? || r.BodyEnd? then []
                                     else (if r.Chunk? then r.bytes else []) + Body(later))
            && (Completes(responses[i..]) <==> !r.Broken? && (r.BodyEnd? || Completes(later)))
  {
    assert responses[i..][1..] == responses[i + 1..];
  }

  lemma NoBody()
    ensures Body([]) == [] && !Completes([])
  {
  }
}
