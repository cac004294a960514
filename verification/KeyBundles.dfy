/** Key bundles: a conversation key sealed for each participant, framed as ephemeral
    public key (32 bytes), nonce (24 bytes) and ciphertext. */
module KeyBundles {
  import opened Wrappers
  import opened Base64
  import opened WebBase64

  type Account = string

  const PUBLIC_KEY_LENGTH: nat := 32
  const NONCE_LENGTH: nat := 24
  const HEADER_LENGTH: nat := 56

  /** The box primitive: seal and open under a nonce, one side's public key and the
      other's secret key. */
  datatype Box = Box(publicOf: Bytes -> Bytes, seal: (Bytes, Bytes, Bytes, Bytes) -> Bytes,
                     open: (Bytes, Bytes, Bytes, Bytes) -> Option<Bytes>)

  /** An ideal box opens what was sealed for it. */
  ghost predicate Ideal(box: Box) {
    && (forall secret: Bytes :: |secret| == PUBLIC_KEY_LENGTH ==> |box.publicOf(secret)| == PUBLIC_KEY_LENGTH)
    && (forall message: Bytes, nonce: Bytes, mine: Bytes, theirs: Bytes ::
          |nonce| == NONCE_LENGTH && |mine| == PUBLIC_KEY_LENGTH && |theirs| == PUBLIC_KEY_LENGTH ==>
            var sealed := box.seal(message, nonce, box.publicOf(theirs), mine);
            box.open(sealed, nonce, box.publicOf(mine), theirs) == Some(message))
  }

  datatype Error = BadSize | BoxOpenFailed | BadKeyLength

  /** What one wrapping draws at random. */
  datatype Draw = Draw(secret: Bytes, nonce: Bytes)

  predicate WellSized(draw: Draw) {
    |draw.secret| == PUBLIC_KEY_LENGTH && |draw.nonce| == NONCE_LENGTH
  }

  function Frame(box: Box, key: Bytes, recipient: Bytes, draw: Draw): Bytes {
    box.publicOf(draw.secret) + draw.nonce + box.seal(key, draw.nonce, recipient, draw.secret)
  }

  /** encryptForRecipient: copy the three parts into one buffer. The box throws when the
      recipient's public key is not 32 bytes. */
  method EncryptForRecipient(box: Box, key: Bytes, recipient: Bytes, draw: Draw) returns (wrapped: Result<Bytes, Error>)
    requires Ideal(box) && WellSized(draw)
    ensures wrapped == if |recipient| == PUBLIC_KEY_LENGTH then Ok(Frame(box, key, recipient, draw)) else Err(BadSize)
  {
    if |recipient| != PUBLIC_KEY_LENGTH {
      return Err(BadSize);
    }
    var encrypted := box.seal(key, draw.nonce, recipient, draw.secret);
    var ephemeral := box.publicOf(draw.secret);
    var result := new Byte[32 + 24 + |encrypted|];
    forall i | 0 <= i < |ephemeral| { result[i] := ephemeral[i]; }
    forall i | 0 <= i < |draw.nonce| { result[32 + i] := draw.nonce[i]; }
    forall i | 0 <= i < |encrypted| { result[56 + i] := encrypted[i]; }
    assert result[..] == Frame(box, key, recipient, draw);
    wrapped := Ok(result[..]);
  }

  /** data.subarray(from, to): out-of-range bounds are clamped. */
  function Subarray(data: Bytes, from: nat, to: nat): Bytes {
    var last := if to < |data| then to else |data|;
    if from < last then data[from..last] else []
  }

  /** nacl.box.open checks sizes before anything else. */
  function Opened(box: Box, data: Bytes, secret: Bytes): Result<Bytes, Error> {
    var public, nonce, ciphertext := Subarray(data, 0, 32), Subarray(data, 32, 56), Subarray(data, 56, |data|);
    if |public| != PUBLIC_KEY_LENGTH || |secret| != PUBLIC_KEY_LENGTH || |nonce| != NONCE_LENGTH then Err(BadSize)
    else match box.open(ciphertext, nonce, public, secret)
      case Some(key) => Ok(key)
      case None => Err(BoxOpenFailed)
  }

  /** decryptKeyBundle: the raw key is then imported as an AES key. */
  function DecryptKeyBundle(box: Box, base64: string, secret: Bytes): Result<Bytes, Error> {
    match Opened(box, LenientDecode(base64), secret)
    case Ok(key) => if |key| == 16 || |key| == 24 || |key| == 32 then Ok(key) else Err(BadKeyLength)
    case Err(error) => Err(error)
  }

  /** decryptConversationKey in the browser: every failure is a null. */
  function DecryptConversationKey(box: Box, keys: map<Account, string>, account: Account, secret: Bytes)
    : Option<Bytes>
  {
    if account !in keys || keys[account] == "" then None
    else match StrictDecode(keys[account])
      case None => None
      case Some(payload) =>
        if |payload| < HEADER_LENGTH then None
        else match Opened(box, payload, secret)
          case Ok(key) => Some(key)
          case Err(_) => None
  }

  datatype Participant = Participant(account: Account, publicKey: Bytes)

  predicate AllSized(participants: seq<Participant>) {
    forall i :: 0 <= i < |participants| ==> |participants[i].publicKey| == PUBLIC_KEY_LENGTH
  }

  /** The participants are the entries of a record. */
  predicate DistinctAccounts(participants: seq<Participant>) {
    forall i, j :: 0 <= i < j < |participants| ==> participants[i].account != participants[j].account
  }

  function Bundle(box: Box, key: Bytes, participant: Participant, draw: Draw): string {
    Encode(Frame(box, key, participant.publicKey, draw))
  }

  /** One bundle for each participant, under that participant's own draw. */
  function Bundles(box: Box, key: Bytes, participants: seq<Participant>, draws: seq<Draw>): map<Account, string>
    requires |draws| == |participants|
  {
    if participants == [] then map[]
    else
      var last := |participants| - 1;
      Bundles(box, key, participants[..last], draws[..last])
        [participants[last].account := Bundle(box, key, participants[last], draws[last])]
  }

  /** The record holds every participant's own bundle, and nobody else's. */
  lemma {:induction false} EveryoneGetsTheirBundle(box: Box, key: Bytes, participants: seq<Participant>,
                                                   draws: seq<Draw>)
    requires |draws| == |participants| && DistinctAccounts(participants)
    ensures Bundles(box, key, participants, draws).Keys == (set p | p in participants :: p.account)
    ensures forall i :: 0 <= i < |participants| ==>
              && participants[i].account in Bundles(box, key, participants, draws)
              && Bundles(box, key, participants, draws)[participants[i].account]
                 == Bundle(box, key, participants[i], draws[i])
  {
    hide Bundle;
    if participants != [] {
      var last := |participants| - 1;
      EveryoneGetsTheirBundle(box, key, participants[..last], draws[..last]);
      assert participants == participants[..last] + [participants[last]];
    }
  }

  method BundleFor(box: Box, key: Bytes, participant: Participant, draw: Draw) returns (bundle: Result<string, Error>)
    requires Ideal(box) && WellSized(draw)
    ensures bundle ==
            if |participant.publicKey| == PUBLIC_KEY_LENGTH then Ok(Bundle(box, key, participant, draw))
            else Err(BadSize)
  {
    var wrapped := EncryptForRecipient(box, key, participant.publicKey, draw);
    if wrapped.Err? {
      return Err(BadSize);
    }
    var base64 := ToBase64(wrapped.value);
    bundle := Ok(base64);
  }

  method CreateKeyExchange(box: Box, key: Bytes, participants: seq<Participant>, draws: seq<Draw>)
    returns (keys: Result<map<Account, string>, Error>)
    requires Ideal(box) && |draws| == |participants|
    requires forall i :: 0 <= i < |draws| ==> WellSized(draws[i])
    ensures keys == if AllSized(participants) then Ok(Bundles(box, key, participants, draws)) else Err(BadSize)
    ensures keys.Ok? <==> forall i :: 0 <= i < |participants| ==> |participants[i].publicKey| == 32
  {
    hide Bundle, Ideal;
    var bundles: map<Account, string> := map[];
    for i := 0 to |participants|
      invariant forall j :: 0 <= j < i ==> |participants[j].publicKey| == PUBLIC_KEY_LENGTH
      invariant bundles == Bundles(box, key, participants[..i], draws[..i])
    {
      var bundle := BundleFor(box, key, participants[i], draws[i]);
      if bundle.Err? {
        return Err(BadSize);
      }
      BundlesGrow(box, key, participants, draws, i);
      bundles := bundles[participants[i].account := bundle.value];
    }
    assert participants[..|participants|] == participants && draws[..|draws|] == draws;
    keys := Ok(bundles);
  }

  lemma BundlesGrow(box: Box, key: Bytes, participants: seq<Participant>, draws: seq<Draw>, i: nat)
    requires |draws| == |participants| && i < |participants|
    ensures Bundles(box, key, participants[..i + 1], draws[..i + 1]) ==
            Bundles(box, key, participants[..i], draws[..i])
              [participants[i].account := Bundle(box, key, participants[i], draws[i])]
  {
    assert participants[..i + 1][..i] == participants[..i] && draws[..i + 1][..i] == draws[..i];
  }

  /** The frame comes apart into the parts it was made of. */
  lemma FrameSplits(box: Box, key: Bytes, recipient: Bytes, draw: Draw)
    requires Ideal(box) && WellSized(draw)
    ensures var data := Frame(box, key, recipient, draw);
            && |data| >= HEADER_LENGTH
            && Subarray(data, 0, 32) == box.publicOf(draw.secret)
            && Subarray(data, 32, 56) == draw.nonce
            && Subarray(data, 56, |data|) == box.seal(key, draw.nonce, recipient, draw.secret)
  {
  }

  /** The library opens a bundle that has room for a public key and a nonce, and that the
      box opens to an AES key; each other case has its error. */
  lemma LibraryOpensIff(box: Box, base64: string, secret: Bytes)
    ensures var data, result := LenientDecode(base64), DecryptKeyBundle(box, base64, secret);
            if |data| < 56 || |secret| != 32 then result == Err(BadSize)
            else match box.open(data[56..], data[32..56], data[..32], secret)
              case None => result == Err(BoxOpenFailed)
              case Some(key) => result == if |key| == 16 || |key| == 24 || |key| ==
                32 then Ok(key) else Err(BadKeyLength)
  {
    hide LenientDecode;
    var data := LenientDecode(base64);
    if |data| >= 56 {
      assert Subarray(data, 0, 32) == data[..32] && Subarray(data, 56, |data|) == data[56..];
    }
  }

  /** The browser opens the account's bundle if it is strict base64 and the same holds. */
  lemma BrowserOpensIff(box: Box, keys: map<Account, string>, account: Account, secret: Bytes)
    ensures var key := DecryptConversationKey(box, keys, account, secret);
            if account !in keys || keys[account] == "" || StrictDecode(keys[account]).None? then key == None
            else
              var data := StrictDecode(keys[account]).value;
              key == if |data| < 56 || |secret| != 32 then None
                  else box.open(data[56..], data[32..56], data[..32], secret)
  {
    hide StrictDecode;
    if account in keys && StrictDecode(keys[account]).Some? {
      var data := StrictDecode(keys[account]).value;
      if |data| >= 56 {
        assert Subarray(data, 0, 32) == data[..32] && Subarray(data, 56, |data|) == data[56..];
      }
    }
  }

  lemma FrameOpens(box: Box, key: Bytes, secret: Bytes, draw: Draw)
    requires Ideal(box) && WellSized(draw) && |secret| == PUBLIC_KEY_LENGTH
    ensures Opened(box, Frame(box, key, box.publicOf(secret), draw), secret) == Ok(key)
  {
    FrameSplits(box, key, box.publicOf(secret), draw);
    assert box.open(box.seal(key, draw.nonce, box.publicOf(secret), draw.secret), draw.nonce,
        box.publicOf(draw.secret), secret)
           == Some(key);
  }

  /** One bundle opens to the key it wraps on both sides. */
  lemma BundleOpens(box: Box, key: Bytes, keys: map<Account, string>, participant: Participant, secret: Bytes,
                    draw: Draw)
    requires Ideal(box) && WellSized(draw) && |secret| == PUBLIC_KEY_LENGTH && |key| == 32
    requires participant.publicKey == box.publicOf(secret)
    requires participant.account in keys && keys[participant.account] == Bundle(box, key, participant, draw)
    ensures DecryptKeyBundle(box, keys[participant.account], secret) == Ok(key)
    ensures DecryptConversationKey(box, keys, participant.account, secret) == Some(key)
  {
    var data := Frame(box, key, participant.publicKey, draw);
    FrameSplits(box, key, participant.publicKey, draw);
    FrameOpens(box, key, secret, draw);
    StrictRoundTrip(data);
    LenientRoundTrip(data);
    EmptyTextHoldsNothing();
  }

  /** Every bundle of an exchange opens to the conversation key, for the participant it
      was made for, in the library and in the browser. */
  lemma EveryBundleOpens(box: Box, key: Bytes, participants: seq<Participant>, draws: seq<Draw>, i: nat, secret: Bytes)
    requires Ideal(box) && |draws| == |participants| && DistinctAccounts(participants) && i < |participants|
    requires WellSized(draws[i]) && |secret| == PUBLIC_KEY_LENGTH && |key| == 32
    requires participants[i].publicKey == box.publicOf(secret)
    ensures var keys := Bundles(box, key, participants, draws);
            && participants[i].account in keys
            && DecryptKeyBundle(box, keys[participants[i].account], secret) == Ok(key)
            && DecryptConversationKey(box, keys, participants[i].account, secret) == Some(key)
  {
    EveryoneGetsTheirBundle(box, key, participants, draws);
    BundleOpens(box, key, Bundles(box, key, participants, draws), participants[i], secret, draws[i]);
  }

  lemma EmptyTextHoldsNothing()
    ensures LenientDecode("") == []
  {
  }

  /** On any stored string at all, what the browser opens the library opens alike, as long
      as it has the length of an AES key; the library never rejects it otherwise. */
  lemma BrowserImpliesLibrary(box: Box, keys: map<Account, string>, account: Account, secret: Bytes)
    requires DecryptConversationKey(box, keys, account, secret).Some?
    ensures var key := DecryptConversationKey(box, keys, account, secret).value;
            DecryptKeyBundle(box, keys[account], secret) ==
            if |key| == 16 || |key| == 24 || |key| == 32 then Ok(key) else Err(BadKeyLength)
  {
    DecodersAgree(keys[account]);
  }

  /** The other way round it depends on the text alone: the browser opens what the
      library opens exactly when the text is strict base64. */
  lemma LibraryImpliesBrowserIff(box: Box, keys: map<Account, string>, account: Account, secret: Bytes)
    requires account in keys && DecryptKeyBundle(box, keys[account], secret).Ok?
    ensures var key := DecryptKeyBundle(box, keys[account], secret).value;
            DecryptConversationKey(box, keys, account, secret) == Some(key) <==> StrictDecode(keys[account]).Some?
  {
    EmptyTextHoldsNothing();
    if StrictDecode(keys[account]).Some? {
      DecodersAgree(keys[account]);
    }
  }

  /** A box that only marks its message: ideal boxes exist. */
  function MarkingBox(): Box {
    Box((secret: Bytes) => secret,
        (message: Bytes, nonce: Bytes, public: Bytes, secret: Bytes) => [0] + message,
        (sealed: Bytes, nonce: Bytes, public: Bytes, secret: Bytes) => if sealed == [] then None else Some(sealed[1..]))
  }

  lemma IdealBoxesExist()
    ensures Ideal(MarkingBox())
  {
    var box := MarkingBox();
    forall message: Bytes, nonce: Bytes, mine: Bytes, theirs: Bytes
      ensures box.open(box.seal(message, nonce, box.publicOf(theirs), mine), nonce, box.publicOf(mine), theirs) ==
        Some(message)
    {
      assert ([0] + message)[1..] == message;
    }
  }
}
