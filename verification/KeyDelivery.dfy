/** What a rotation or a creation stores is of use to those it is for: every member opens
    their own bundle to the conversation's key. */
module KeyDelivery {
  import opened Wrappers
  import opened Ledger
  import opened Membership
  import opened ConversationsService
  import opened Base64
  import Keys = KeyBundles

  /** What one rotation draws: the fresh key, and for each account what its bundle needs. */
  datatype Drawn = Drawn(key: Bytes, draws: Account -> Keys.Draw)

  /** `wrap` seals the drawn key for the public key that the text encodes. */
  ghost predicate Seals(wrap: Wrap, box: Keys.Box, drawn: Drawn) {
    && Keys.Ideal(box) && |drawn.key| == 32
    && (forall a :: Keys.WellSized(drawn.draws(a)))
    && (forall a, publicKey :: wrap(a, publicKey) ==
         Keys.Bundle(box, drawn.key, Keys.Participant(a, LenientDecode(publicKey)), drawn.draws(a)))
  }

  /** The secret belongs to the public key on the account's user row. */
  ghost predicate HoldsSecret(users: Users, a: Account, box: Keys.Box, secret: Bytes) {
    && a in users && users[a].publicKey.Some? && |secret| == Keys.PUBLIC_KEY_LENGTH
    && LenientDecode(users[a].publicKey.value) == box.publicOf(secret)
  }

  /** The record opens to the key, in the browser and in the library. */
  ghost predicate Opens(record: map<Account, Bundle>, a: Account, box: Keys.Box, secret: Bytes, key: Bytes) {
    && a in record
    && Keys.DecryptConversationKey(box, record, a, secret) == Some(key)
    && Keys.DecryptKeyBundle(box, record[a], secret) == Ok(key)
  }

  lemma OwnBundleOpens(record: map<Account, Bundle>, accounts: set<Account>, users: Users, wrap: Wrap, box: Keys.Box,
                       drawn: Drawn, a: Account, secret: Bytes)
    requires AllKeyed(accounts, users) && EachTheirOwn(record, accounts, users, wrap) && Seals(wrap, box, drawn)
    requires a in accounts && HoldsSecret(users, a, box, secret)
    ensures Opens(record, a, box, secret, drawn.key)
  {
    var participant := Keys.Participant(a, LenientDecode(users[a].publicKey.value));
    assert Keys.WellSized(drawn.draws(a));
    assert record[a] == wrap(a, users[a].publicKey.value);
    Keys.BundleOpens(box, drawn.key, record, participant, secret, drawn.draws(a));
  }

  /** After a rotation that went through, every active member opens the stored bundle, and
      the one in the exchange on the topic, to the fresh key. */
  lemma RotatedKeysOpen(room: Room, ledger: seq<Entry>, users: Users, keyId: KeyId, wrap: Wrap, payer: Account,
                        faults: Faults, box: Keys.Box, drawn: Drawn, a: Account, secret: Bytes)
    requires Seals(wrap, box, drawn) && HoldsSecret(users, a, box, secret)
    requires a in Active(room.members) && AllKeyed(Active(room.members), users)
    requires faults.delivery.Delivered? && faults.saved
    ensures var (room', ledger') := Rotated(room, ledger, users, keyId, wrap, payer, faults);
            && room'.keys.Some? && Opens(room'.keys.value.bundles, a, box, secret, drawn.key)
            && |ledger'| == |ledger| + 1 && ledger'[|ledger|].payload.KeyExchange?
            && Opens(ledger'[|ledger|].payload.keys, a, box, secret, drawn.key)
  {
    hide Seals, HoldsSecret, Opens;
    var (room', ledger') := Rotated(room, ledger, users, keyId, wrap, payer, faults);
    OwnBundleOpens(room'.keys.value.bundles, Active(room.members), users, wrap, box, drawn, a, secret);
  }
}
