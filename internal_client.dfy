/**
 * `Abigail\InternalClient`: the client used without HTTP. Its
 * `sendResponse` puts `status` first and encodes the envelope in the
 * negotiated format, but sends no header and echoes nothing; the encoded
 * text is only returned.
 */
module InternalClients {
  import opened Php
  import opened Clients

  /**
   * `InternalClient::sendResponse` for the client's negotiated `format`:
   * the payload with the integer `status` in front (or updated in place
   * when the payload already has one), encoded; None where the JSON
   * pretty-printer fails.
   */
  function InternalSendResponse(format: string, code: string, msg: seq<(Key, Value)>, jsonEncode: Value -> string): (r: Option<string>)
    requires format in OutputFormats && UniqueKeys(msg)
    ensures !HasKey(msg, KStr("status")) ==>
              r == Encode(format, [(KStr("status"), Int(IntVal(code)))] + msg, jsonEncode)
    ensures HasKey(msg, KStr("status")) ==>
              r == Encode(format, msg[Find(msg, KStr("status")).value := (KStr("status"), Int(IntVal(code)))], jsonEncode)
  {
    StatusFirstSpec(code, msg);
    Encode(format, StatusFirst(code, msg), jsonEncode)
  }

  /** An envelope in XML always comes back as a document: only the JSON pretty-printer can fail. */
  lemma {:induction false} InternalXmlAlwaysEncodes(code: string, msg: seq<(Key, Value)>, jsonEncode: Value -> string)
    requires UniqueKeys(msg)
    ensures InternalSendResponse("xml", code, msg, jsonEncode).Some?
  {
  }
}
