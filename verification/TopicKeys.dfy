/** The crypto package's messages: encrypted under the key stored for a topic, and
    decrypted only under a key of the same id. */
module TopicKeys {
  import opened Wrappers
  import opened Base64
  import opened WebBase64
  import opened WebMessages

  type TopicId = string

  datatype Metadata = Metadata(keyId: string, key: Bytes, rotationIndex: nat)

  datatype Envelope = Envelope(encryptedPayload: string, nonce: string, keyId: string)

  datatype KeyError = KeyNotFound | KeyIdMismatch | BadBase64 | Rejected

  type Keys = map<TopicId, Metadata>

  /** The payload is given as its JSON text. */
  function Sealed(cipher: Cipher, keys: Keys, topic: TopicId, json: string, nonce: Bytes): Result<Envelope, KeyError> {
    if topic !in keys then Err(KeyNotFound)
    else
      var metadata := keys[topic];
      Ok(Envelope(Encode(cipher.seal(metadata.key, nonce, cipher.encode(json))), Encode(nonce), metadata.keyId))
  }

  function Unsealed(cipher: Cipher, keys: Keys, topic: TopicId, envelope: Envelope): Result<string, KeyError> {
    if topic !in keys then Err(KeyNotFound)
    else if keys[topic].keyId != envelope.keyId then Err(KeyIdMismatch)
    else match (StrictDecode(envelope.encryptedPayload), StrictDecode(envelope.nonce))
      case (Some(ciphertext), Some(nonce)) =>
        (match cipher.open(keys[topic].key, nonce, ciphertext)
         case Some(message) => Ok(cipher.decode(message))
         case None => Err(Rejected))
      case _ => Err(BadBase64)
  }

  /** The module's key map. */
  class KeyStore {
    var keys: Keys

    constructor ()
      ensures keys == map[]
    {
      keys := map[];
    }

    method StoreKey(topic: TopicId, metadata: Metadata)
      modifies this
      ensures keys == old(keys)[topic := metadata]
    {
      keys := keys[topic := metadata];
    }

    method RemoveKey(topic: TopicId)
      modifies this
      ensures keys == old(keys) - {topic}
    {
      keys := keys - {topic};
    }

    method EncryptMessage(cipher: Cipher, topic: TopicId, json: string, nonce: Bytes)
      returns (sent: Result<Envelope, KeyError>)
      ensures sent == Sealed(cipher, keys, topic, json, nonce)
    {
      if topic !in keys {
        return Err(KeyNotFound);
      }
      var metadata := keys[topic];
      var payload64 := ToBase64(cipher.seal(metadata.key, nonce, cipher.encode(json)));
      var nonce64 := ToBase64(nonce);
      sent := Ok(Envelope(payload64, nonce64, metadata.keyId));
    }

    method DecryptMessage(cipher: Cipher, topic: TopicId, envelope: Envelope) returns (json: Result<string, KeyError>)
      ensures json == Unsealed(cipher, keys, topic, envelope)
    {
      if topic !in keys {
        return Err(KeyNotFound);
      }
      if keys[topic].keyId != envelope.keyId {
        return Err(KeyIdMismatch);
      }
      var ciphertext := FromBase64(envelope.encryptedPayload);
      if ciphertext.None? {
        return Err(BadBase64);
      }
      var nonce := FromBase64(envelope.nonce);
      if nonce.None? {
        return Err(BadBase64);
      }
      match cipher.open(keys[topic].key, nonce.value, ciphertext.value)
      case Some(message) => json := Ok(cipher.decode(message));
      case None => json := Err(Rejected);
    }
  }

  /** Between two parties' stores, a key id names one key. */
  ghost predicate IdsAgree(sender: Keys, receiver: Keys, topic: TopicId) {
    topic in sender && topic in receiver && sender[topic].keyId == receiver[topic].keyId ==>
      sender[topic].key == receiver[topic].key
  }

  /** What one party sends another reads, exactly when it holds a key of the same id; with
      none it reports KEY_NOT_FOUND, and with any other KEY_ID_MISMATCH. */
  lemma WhatTheReceiverReads(cipher: Cipher, sender: Keys, receiver: Keys, topic: TopicId, json: string, nonce: Bytes)
    requires Ideal(cipher) && IdsAgree(sender, receiver, topic) && topic in sender
    ensures Sealed(cipher, sender, topic, json, nonce).Ok?
    ensures Sealed(cipher, sender - {topic}, topic, json, nonce) == Err(KeyNotFound)
    ensures Unsealed(cipher, receiver, topic, Sealed(cipher, sender, topic, json, nonce).value) ==
            if topic !in receiver then Err(KeyNotFound)
            else if receiver[topic].keyId != sender[topic].keyId then Err(KeyIdMismatch)
            else Ok(cipher.decode(cipher.encode(json)))
  {
    StrictRoundTrip(cipher.seal(sender[topic].key, nonce, cipher.encode(json)));
    StrictRoundTrip(nonce);
  }

  /** The grounds on which an envelope is not opened, in the order of the checks. */
  lemma OpeningFailsIff(cipher: Cipher, keys: Keys, topic: TopicId, envelope: Envelope)
    ensures var text := Unsealed(cipher, keys, topic, envelope);
            var payload, nonce := StrictDecode(envelope.encryptedPayload), StrictDecode(envelope.nonce);
            var held := topic in keys && keys[topic].keyId == envelope.keyId;
            var legible := held && payload.Some? && nonce.Some?;
            && (text == Err(KeyNotFound) <==> topic !in keys)
            && (text == Err(KeyIdMismatch) <==> topic in keys && !held)
            && (text == Err(BadBase64) <==> held && !legible)
            && (text == Err(Rejected) <==> legible && cipher.open(keys[topic].key, nonce.value, payload.value).None?)
            && (text.Ok? <==> legible && cipher.open(keys[topic].key, nonce.value, payload.value).Some?)
  {
    hide StrictDecode;
  }

  /** The store keeps one key a topic: once it is rotated, no earlier message opens, even
      for its own sender. */
  lemma RotationClosesEarlierMessages(cipher: Cipher, keys: Keys, topic: TopicId, json: string, nonce: Bytes,
                                      rotated: Metadata)
    requires topic in keys && rotated.keyId != keys[topic].keyId
    ensures Unsealed(cipher, keys[topic := rotated], topic, Sealed(cipher, keys, topic, json, nonce).value) ==
      Err(KeyIdMismatch)
  {
  }
}
