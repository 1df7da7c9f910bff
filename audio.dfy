/**
 * The audio use case: an uploaded sample is accepted only when the client
 * identifier parses and the payload has exactly the configured length; it is
 * then handed to the sender once, tagged with the parsed identifier and the
 * request identifier. No retry, no truncation, no padding.
 */
module Audio {

  import opened Wrappers
  import opened Bytes
  import opened Errors

  /** A document-store object identifier, opaque here. */
  type ObjectId = seq<byte>

  datatype AudioMessage = AudioMessage(id: ObjectId, timestamp: int, payload: seq<byte>)

  /** What one Send call hands to the message producer. */
  datatype Envelope = Envelope(reqID: string, msg: AudioMessage)

  /** The Sender collaborator: every call is recorded in `attempts`, and the ones
      the producer accepted also in `delivered`. */
  class Outbox {
    var attempts: seq<Envelope>
    var delivered: seq<Envelope>

    constructor ()
      ensures attempts == [] && delivered == []
    {
      attempts := [];
      delivered := [];
    }

    method Send(reqID: string, msg: AudioMessage, fault: Option<Fault>) returns (err: Option<Error>)
      modifies this
      ensures attempts == old(attempts) + [Envelope(reqID, msg)]
      ensures fault.None? ==> err.None? && delivered == old(delivered) + [Envelope(reqID, msg)]
      ensures fault.Some? ==> err == Some(Driver(fault.value)) && delivered == old(delivered)
    {
      attempts := attempts + [Envelope(reqID, msg)];
      if fault.Some? {
        return Some(Driver(fault.value));
      }
      delivered := delivered + [Envelope(reqID, msg)];
      err := None;
    }
  }

  class Audio {
    const audioSender: Outbox
    const audioLength: int

    /** NewAudioUCase */
    constructor (audioSender: Outbox, audioLength: int)
      ensures this.audioSender == audioSender && this.audioLength == audioLength
    {
      this.audioSender := audioSender;
      this.audioLength := audioLength;
    }

    /** The payload must have exactly `audioLength` bytes; a mismatch is an
        error that matches `ErrNotEqRequiredLength` and names both lengths. */
    function Validate(audio: seq<byte>): (r: Option<Error>)
      ensures r.None? <==> |audio| == audioLength
      ensures r.Some? ==> Is(r.value, ErrNotEqRequiredLength)
      ensures r.Some? ==> r.value.Wrap? && r.value.context == LengthDetail(audioLength, |audio|)
    {
      if |audio| != audioLength then
        Some(Wrap(LengthDetail(audioLength, |audio|), ErrNotEqRequiredLength))
      else
        None
    }

    /** `objectIdFromHex` stands for the document store's identifier parser,
        whose code is not part of the model; `sendFault` is the outcome of the
        producer call. */
    method Upload(reqID: string, clientID: string, msg: AudioMessage,
                  objectIdFromHex: string -> Result<ObjectId, Fault>, sendFault: Option<Fault>)
      returns (err: Option<Error>)
      modifies audioSender
      ensures err.None? <==>
        objectIdFromHex(clientID).Success? && |msg.payload| == audioLength && sendFault.None?
      // an identifier that does not parse: no validation, no Send
      ensures objectIdFromHex(clientID).Failure? ==>
        && err == Some(Wrap(ConvertClientID, Driver(objectIdFromHex(clientID).error)))
        && audioSender.attempts == old(audioSender.attempts)
        && audioSender.delivered == old(audioSender.delivered)
      // a payload of the wrong length: no Send
      ensures objectIdFromHex(clientID).Success? && |msg.payload| != audioLength ==>
        && err == Some(Wrap(Validation, Wrap(LengthDetail(audioLength, |msg.payload|), ErrNotEqRequiredLength)))
        && Is(err.value, ErrNotEqRequiredLength)
        && audioSender.attempts == old(audioSender.attempts)
        && audioSender.delivered == old(audioSender.delivered)
      // otherwise exactly one Send, of the message with its ID set, and no retry
      ensures objectIdFromHex(clientID).Success? && |msg.payload| == audioLength ==>
        var sent := Envelope(reqID, msg.(id := objectIdFromHex(clientID).value));
        && audioSender.attempts == old(audioSender.attempts) + [sent]
        && audioSender.delivered == old(audioSender.delivered) + (if sendFault.None? then [sent] else [])
        && (sendFault.Some? ==> err == Some(Wrap(SendAudio, Driver(sendFault.value))))
    {
      var castedID := objectIdFromHex(clientID);
      if castedID.Failure? {
        return Some(Wrap(ConvertClientID, Driver(castedID.error)));
      }
      var m := msg.(id := castedID.value);

      var e := Validate(m.payload);
      if e.Some? {
        return Some(Wrap(Validation, e.value));
      }

      e := audioSender.Send(reqID, m, sendFault);
      if e.Some? {
        return Some(Wrap(SendAudio, e.value));
      }

      return None;
    }
  }
}
