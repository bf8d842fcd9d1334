/** Sessions and control payloads (daemon/models.py), as far as the protocols look at them. */
module Models {

  type pos = n: int | n >= 1 witness 1

  datatype InferenceSession = InferenceSession(
    requestId: string,
    prompt: string,
    maxTokens: pos,
    generatedText: seq<string>,
    lastFlushed: int,
    totalTokensGenerated: nat)
}
