/** The browser's message encryption: AES-GCM output split into ciphertext and tag,
    each sent as base64, and put together again to decrypt. */
module WebMessages {
  import opened Wrappers
  import opened Base64
  import opened WebBase64

  const KEY_LENGTH: nat := 32
  const IV_LENGTH: nat := 12
  const TAG_LENGTH: nat := 16

  /** The cipher primitive, with the tag at the end of what it seals, and the text
      encoding used around it. */
  datatype Cipher = Cipher(seal: (Bytes, Bytes, Bytes) -> Bytes, open: (Bytes, Bytes, Bytes) -> Option<Bytes>,
                           encode: string -> Bytes, decode: Bytes -> string)

  /** An ideal cipher opens what it sealed, and appends a whole tag. */
  ghost predicate Ideal(cipher: Cipher) {
    forall key: Bytes, iv: Bytes, message: Bytes ::
      && |cipher.seal(key, iv, message)| == |message| + TAG_LENGTH
      && cipher.open(key, iv, cipher.seal(key, iv, message)) == Some(message)
  }

  datatype EncryptedData = EncryptedData(ciphertext: string, iv: string, tag: string)

  datatype Error = InvalidPlaintext | InvalidKeyLength | InvalidCharacter | InvalidIv | InvalidTag | DecryptionFailed

  /** Cut the tag off the end, and encode each part. */
  method EncryptMessage(cipher: Cipher, plaintext: string, key: Bytes, iv: Bytes)
    returns (sent: Result<EncryptedData, Error>)
    requires Ideal(cipher) && |iv| == IV_LENGTH
    ensures sent == Encrypted(cipher, plaintext, key, iv)
  {
    if plaintext == "" {
      return Err(InvalidPlaintext);
    }
    if |key| != KEY_LENGTH {
      return Err(InvalidKeyLength);
    }
    var full := cipher.seal(key, iv, cipher.encode(plaintext));
    var ciphertext := ToBase64(full[..|full| - 16]);
    var iv64 := ToBase64(iv);
    var tag := ToBase64(full[|full| - 16..]);
    sent := Ok(EncryptedData(ciphertext, iv64, tag));
  }

  function Encrypted(cipher: Cipher, plaintext: string, key: Bytes, iv: Bytes): Result<EncryptedData, Error>
    requires Ideal(cipher)
  {
    if plaintext == "" then Err(InvalidPlaintext)
    else if |key| != KEY_LENGTH then Err(InvalidKeyLength)
    else
      var message := cipher.encode(plaintext);
      var full := cipher.seal(key, iv, message);
      Ok(EncryptedData(Encode(full[..|message|]), Encode(iv), Encode(full[|message|..])))
  }

  /** The checks of a decryption, in order; the tag is put back behind the ciphertext. */
  function Decrypted(cipher: Cipher, data: EncryptedData, key: Bytes): Result<string, Error> {
    if |key| != KEY_LENGTH then Err(InvalidKeyLength)
    else match (StrictDecode(data.iv), StrictDecode(data.ciphertext), StrictDecode(data.tag))
      case (Some(iv), Some(ciphertext), Some(tag)) =>
        if |iv| != IV_LENGTH then Err(InvalidIv)
        else if |tag| != TAG_LENGTH then Err(InvalidTag)
        else (match cipher.open(key, iv, ciphertext + tag)
              case Some(message) => Ok(cipher.decode(message))
              case None => Err(DecryptionFailed))
      case _ => Err(InvalidCharacter)
  }

  method DecryptMessage(cipher: Cipher, data: EncryptedData, key: Bytes) returns (text: Result<string, Error>)
    ensures text == Decrypted(cipher, data, key)
  {
    if |key| != KEY_LENGTH {
      return Err(InvalidKeyLength);
    }
    var iv := FromBase64(data.iv);
    var ciphertext := FromBase64(data.ciphertext);
    var tag := FromBase64(data.tag);
    if iv.None? || ciphertext.None? || tag.None? {
      return Err(InvalidCharacter);
    }
    if |iv.value| != 12 {
      return Err(InvalidIv);
    }
    if |tag.value| != 16 {
      return Err(InvalidTag);
    }
    var joined := new Byte[|ciphertext.value| + |tag.value|];
    forall i | 0 <= i < |ciphertext.value| { joined[i] := ciphertext.value[i]; }
    forall i | 0 <= i < |tag.value| { joined[|ciphertext.value| + i] := tag.value[i]; }
    assert joined[..] == ciphertext.value + tag.value;
    match cipher.open(key, iv.value, joined[..])
    case Some(message) => text := Ok(cipher.decode(message));
    case None => text := Err(DecryptionFailed);
  }

  /** The grounds on which an encryption fails. */
  lemma EncryptionFailsIff(cipher: Cipher, plaintext: string, key: Bytes, iv: Bytes)
    requires Ideal(cipher)
    ensures var sent := Encrypted(cipher, plaintext, key, iv);
            && (sent == Err(InvalidPlaintext) <==> |plaintext| == 0)
            && (sent == Err(InvalidKeyLength) <==> |plaintext| > 0 && |key| != 32)
            && (sent.Ok? <==> |plaintext| > 0 && |key| == 32)
  {
  }

  /** The grounds on which a decryption fails: a wrong key size before anything is decoded,
      text that is not base64, a wrong size of the other parts, and last the cipher. */
  lemma DecryptionFailsIff(cipher: Cipher, data: EncryptedData, key: Bytes)
    ensures var text := Decrypted(cipher, data, key);
            var (iv, ciphertext, tag) := (StrictDecode(data.iv), StrictDecode(data.ciphertext), StrictDecode(data.tag));
            var legible := |key| == 32 && iv.Some? && ciphertext.Some? && tag.Some?;
            var sized := legible && |iv.value| == 12 && |tag.value| == 16;
            && (text == Err(InvalidKeyLength) <==> |key| != 32)
            && (text == Err(InvalidCharacter) <==> |key| == 32 && !legible)
            && (text == Err(InvalidIv) <==> legible && |iv.value| != 12)
            && (text == Err(InvalidTag) <==> legible && |iv.value| == 12 && |tag.value| != 16)
            && (text.Ok? <==> sized && cipher.open(key, iv.value, ciphertext.value + tag.value).Some?)
            && (text == Err(DecryptionFailed) <==> sized && !text.Ok?)
  {
    hide StrictDecode;
  }

  /** Decrypting what was encrypted gives the text as its encoding reads back: splitting
      off the tag and joining it again loses nothing. */
  lemma EncryptedReadsBack(cipher: Cipher, plaintext: string, key: Bytes, iv: Bytes)
    requires Ideal(cipher) && plaintext != "" && |key| == KEY_LENGTH && |iv| == IV_LENGTH
    ensures Encrypted(cipher, plaintext, key, iv).Ok?
    ensures Decrypted(cipher, Encrypted(cipher, plaintext, key, iv).value, key) ==
      Ok(cipher.decode(cipher.encode(plaintext)))
  {
    var message := cipher.encode(plaintext);
    var full := cipher.seal(key, iv, message);
    hide Encode, StrictDecode;
    StrictRoundTrip(full[..|message|]);
    StrictRoundTrip(full[|message|..]);
    StrictRoundTrip(iv);
    assert full[..|message|] + full[|message|..] == full;
  }

  /** So the text survives exactly when the text encoding keeps it: an unpaired surrogate
      or a leading byte order mark is what it does not keep. */
  lemma RoundTripIff(cipher: Cipher, plaintext: string, key: Bytes, iv: Bytes)
    requires Ideal(cipher) && |iv| == IV_LENGTH
    ensures (Encrypted(cipher, plaintext, key, iv).Ok?
             && Decrypted(cipher, Encrypted(cipher, plaintext, key, iv).value, key) == Ok(plaintext)) <==>
            (plaintext != "" && |key| == KEY_LENGTH && cipher.decode(cipher.encode(plaintext)) == plaintext)
  {
    if plaintext != "" && |key| == KEY_LENGTH {
      EncryptedReadsBack(cipher, plaintext, key, iv);
    }
  }

  /** One byte a character, which keeps the texts of characters below 256. */
  function EncodeBinary(text: string): Bytes {
    seq(|text|, i requires 0 <= i < |text| => text[i] as int % 256)
  }

  /** A cipher that only appends an empty tag: ideal ciphers exist. */
  function TaggingCipher(): Cipher {
    Cipher((key: Bytes, iv: Bytes, message: Bytes) => message + EmptyTag(),
           (key: Bytes, iv: Bytes, sealed: Bytes) =>
             if |sealed| < TAG_LENGTH then None else Some(sealed[..|sealed| - TAG_LENGTH]),
           EncodeBinary, Binary)
  }

  function EmptyTag(): (tag: Bytes)
    ensures |tag| == TAG_LENGTH
  {
    [0, 0, 0, 0, 0, 0, 0, 0, 0, 0, 0, 0, 0, 0, 0, 0]
  }

  lemma IdealCiphersExist()
    ensures Ideal(TaggingCipher())
    ensures forall text: string :: IsBinary(text) ==> TaggingCipher().decode(TaggingCipher().encode(text)) == text
  {
    var cipher := TaggingCipher();
    forall key: Bytes, iv: Bytes, message: Bytes
      ensures |cipher.seal(key, iv, message)| == |message| + TAG_LENGTH
      ensures cipher.open(key, iv, cipher.seal(key, iv, message)) == Some(message)
    {
      assert (message + EmptyTag())[..|message|] == message;
    }
  }
}
