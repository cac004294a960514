/** Read receipts: "sequence:timestamp" strings in one Redis hash per topic. */
module ReadReceipts {
  import opened Wrappers
  import opened Decimal

  type TopicId = string
  type Account = string
  type Hashes = map<TopicId, map<Account, string>>

  datatype Receipt = Receipt(account: Account, topic: TopicId, lastReadSequence: int, timestamp: int)

  function PrintReceipt(sequence: nat, timestamp: nat): string {
    Print(sequence) + ":" + Print(timestamp)
  }

  function IndexOf(s: string, c: char): (i: Option<nat>)
    ensures i.Some? ==> i.value < |s| && s[i.value] == c && c !in s[..i.value]
    ensures i.None? ==> c !in s
  {
    if s == "" then None
    else if s[0] == c then Some(0)
    else match IndexOf(s[1..], c)
      case None => None
      case Some(i) => assert s[..i + 1] == [s[0]] + s[1..][..i]; Some(i + 1)
  }

  function ParseReceipt(topic: TopicId, account: Account, value: string): Option<Receipt> {
    match IndexOf(value, ':')
    case None => None
    case Some(colon) =>
      match (ParseInt(value[..colon]), ParseInt(value[colon + 1..]))
      case (Some(sequence), Some(timestamp)) => Some(Receipt(account, topic, sequence, timestamp))
      case _ => None
  }

  lemma {:induction false} FirstColon(digits: string, rest: string)
    requires ':' !in digits
    ensures IndexOf(digits + ":" + rest, ':') == Some(|digits|)
  {
    if digits != "" {
      FirstColon(digits[1..], rest);
      assert (digits + ":" + rest)[1..] == digits[1..] + ":" + rest;
    }
  }

  /** Parsing a stored receipt gives back both numbers. */
  lemma ReceiptRoundTrip(topic: TopicId, account: Account, sequence: nat, timestamp: nat)
    ensures ParseReceipt(topic, account, PrintReceipt(sequence, timestamp)) ==
            Some(Receipt(account, topic, sequence, timestamp))
  {
    var value := PrintReceipt(sequence, timestamp);
    var n := |Print(sequence)|;
    assert value[..n] == Print(sequence) && value[n + 1..] == Print(timestamp);
    FirstColon(Print(sequence), Print(timestamp));
    ParsePrint(sequence, "");
    ParsePrint(timestamp, "");
  }

  // ---------------------------------------------------------------------------
  // The store
  // ---------------------------------------------------------------------------

  datatype Op =
    | SetReceipt(topic: TopicId, account: Account, sequence: nat, now: nat)
    | Expire(topic: TopicId)  // the key's time to live runs out

  function Apply(hashes: Hashes, op: Op): Hashes {
    match op
    case SetReceipt(topic, account, sequence, now) =>
      var hash := if topic in hashes then hashes[topic] else map[];
      hashes[topic := hash[account := PrintReceipt(sequence, now)]]
    case Expire(topic) => hashes - {topic}
  }

  function ApplyAll(ops: seq<Op>): Hashes {
    if ops == [] then map[] else Apply(ApplyAll(ops[..|ops| - 1]), ops[|ops| - 1])
  }

  /** The receipt an account last set in a topic, unless the topic has expired since. */
  function LastSet(ops: seq<Op>, topic: TopicId, account: Account): Option<Receipt> {
    if ops == [] then None
    else match ops[|ops| - 1]
      case SetReceipt(t, a, sequence, now) =>
        if t == topic && a == account then Some(Receipt(account, topic, sequence, now))
        else LastSet(ops[..|ops| - 1], topic, account)
      case Expire(t) => if t == topic then None else LastSet(ops[..|ops| - 1], topic, account)
  }

  function Stored(hashes: Hashes, topic: TopicId, account: Account): Option<Receipt> {
    if topic in hashes && account in hashes[topic] then ParseReceipt(topic, account, hashes[topic][account]) else None
  }

  /** After any sequence of operations, reading a receipt gives exactly the last one set. */
  lemma {:induction false} StoredIsLastSet(ops: seq<Op>, topic: TopicId, account: Account)
    ensures Stored(ApplyAll(ops), topic, account) == LastSet(ops, topic, account)
    ensures topic in ApplyAll(ops) && account in ApplyAll(ops)[topic] ==> LastSet(ops, topic, account).Some?
  {
    hide ParseReceipt, PrintReceipt;
    if ops != [] {
      StoredIsLastSet(ops[..|ops| - 1], topic, account);
      match ops[|ops| - 1]
      case SetReceipt(_, _, sequence, now) => ReceiptRoundTrip(topic, account, sequence, now);
      case Expire(_) =>
    }
  }

  /** `receipts` lists exactly the last receipts of `topic`, one per account. */
  ghost predicate ListsLastReceipts(receipts: seq<Receipt>, ops: seq<Op>, topic: TopicId) {
    && (forall i :: 0 <= i < |receipts| ==> LastSet(ops, topic, receipts[i].account) == Some(receipts[i]))
    && (forall account :: LastSet(ops, topic, account).Some? ==> LastSet(ops, topic, account).value in receipts)
    && (forall i, j :: 0 <= i < j < |receipts| ==> receipts[i].account != receipts[j].account)
  }

  class ReceiptStore {
    var hashes: Hashes
    ghost var ops: seq<Op>

    ghost predicate Valid()
      reads this
    {
      hashes == ApplyAll(ops)
    }

    constructor ()
      ensures Valid() && ops == []
    {
      hashes, ops := map[], [];
    }

    method SetReadReceipt(topic: TopicId, account: Account, sequence: nat, now: nat)
      requires Valid()
      modifies this
      ensures Valid() && ops == old(ops) + [SetReceipt(topic, account, sequence, now)]
    {
      var hash := if topic in hashes then hashes[topic] else map[];
      hashes := hashes[topic := hash[account := PrintReceipt(sequence, now)]];
      ops := ops + [SetReceipt(topic, account, sequence, now)];
      assert ops[..|ops| - 1] == old(ops);
    }

    method ExpireKey(topic: TopicId)
      requires Valid()
      modifies this
      ensures Valid() && ops == old(ops) + [Expire(topic)]
    {
      hashes := hashes - {topic};
      ops := ops + [Expire(topic)];
      assert ops[..|ops| - 1] == old(ops);
    }

    method GetReadReceipt(topic: TopicId, account: Account) returns (receipt: Option<Receipt>)
      requires Valid()
      ensures receipt == LastSet(ops, topic, account)
    {
      StoredIsLastSet(ops, topic, account);
      receipt := None;
      if topic in hashes && account in hashes[topic] {
        receipt := ParseReceipt(topic, account, hashes[topic][account]);
      }
    }

    method GetAllReadReceipts(topic: TopicId) returns (receipts: seq<Receipt>)
      requires Valid()
      ensures ListsLastReceipts(receipts, ops, topic)
    {
      var hash := if topic in hashes then hashes[topic] else map[];
      receipts := ParseAll(topic, hash);
      forall account ensures Stored(hashes, topic, account) == LastSet(ops, topic, account) {
        StoredIsLastSet(ops, topic, account);
      }
    }
  }

  /** `receipts` lists what parses among the hash's values for `accounts`. */
  ghost predicate ListsParsed(receipts: seq<Receipt>, topic: TopicId, hash: map<Account, string>,
                              accounts: set<Account>) {
    && (forall i :: 0 <= i < |receipts| ==>
         && receipts[i].account in accounts && receipts[i].account in hash
         && ParseReceipt(topic, receipts[i].account, hash[receipts[i].account]) == Some(receipts[i]))
    && (forall account :: account in accounts && account in hash ==>
         ParseReceipt(topic, account, hash[account]).Some? ==>
           ParseReceipt(topic, account, hash[account]).value in receipts)
    && (forall i, j :: 0 <= i < j < |receipts| ==> receipts[i].account != receipts[j].account)
  }

  /** The loop over a topic's hash. */
  method ParseAll(topic: TopicId, hash: map<Account, string>) returns (receipts: seq<Receipt>)
    ensures ListsParsed(receipts, topic, hash, hash.Keys)
  {
    hide ParseReceipt;
    receipts := [];
    var rest := hash.Keys;
    while rest != {}
      invariant rest <= hash.Keys
      invariant ListsParsed(receipts, topic, hash, hash.Keys - rest)
      decreases rest
    {
      var account :| account in rest;
      var receipt := ParseReceipt(topic, account, hash[account]);
      if receipt.Some? {
        ParsedAccount(topic, account, hash[account]);
        receipts := receipts + [receipt.value];
      }
      assert hash.Keys - (rest - {account}) == hash.Keys - rest + {account};
      rest := rest - {account};
    }
    assert hash.Keys - rest == hash.Keys;
  }

  lemma ParsedAccount(topic: TopicId, account: Account, value: string)
    requires ParseReceipt(topic, account, value).Some?
    ensures ParseReceipt(topic, account, value).value.account == account
  {
  }
}
