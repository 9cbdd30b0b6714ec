/**
 Hash functions without collisions, written down: the collision-freedom hypotheses can be met, all at once, by
 functions that spell a record out as one number.
 */
module Idealization {
  import opened Prelude
  import opened Types

  /** 2^a * (2b + 1): a pair of numbers as one. */
  function Mark(a: nat, b: nat): (r: nat)
    ensures r > 0
  {
    if a == 0 then 2 * b + 1 else 2 * Mark(a - 1, b)
  }

  lemma {:induction false} MarkInjective(a: nat, b: nat, x: nat, y: nat)
    requires Mark(a, b) == Mark(x, y)
    ensures a == x && b == y
  {
    if a > 0 && x > 0 {
      MarkInjective(a - 1, b, x - 1, y);
    }
  }

  function Code(s: seq<nat>): nat {
    if s == [] then 0 else Mark(s[0], Code(s[1..]))
  }

  lemma {:induction false} CodeInjective(s: seq<nat>, t: seq<nat>)
    requires Code(s) == Code(t)
    ensures s == t
  {
    if s != [] && t != [] {
      MarkInjective(s[0], Code(s[1..]), t[0], Code(t[1..]));
      CodeInjective(s[1..], t[1..]);
      assert s == [s[0]] + s[1..] && t == [t[0]] + t[1..];
    }
  }

  function OfInt(i: int): nat {
    if i >= 0 then 2 * i else -2 * i - 1
  }

  function OfString(s: string): nat {
    Code(seq(|s|, i requires 0 <= i < |s| => s[i] as int))
  }

  lemma {:induction false} StringInjective(s: string, t: string)
    requires OfString(s) == OfString(t)
    ensures s == t
  {
    var a, b := seq(|s|, i requires 0 <= i < |s| => s[i] as int), seq(|t|, i requires 0 <= i < |t| => t[i] as int);
    CodeInjective(a, b);
    assert forall i :: 0 <= i < |s| ==> a[i] == s[i] as int && b[i] == t[i] as int;
  }

  function OfTxIn(i: TxIn): nat {
    Code([i.prev.txid, OfInt(i.prev.vout), OfString(i.pubkey), OfString(i.signature)])
  }

  function OfTxOut(o: TxOut): nat {
    Code([OfString(o.address), OfInt(o.amount)])
  }

  function OfInputs(s: seq<TxIn>): nat {
    Code(seq(|s|, i requires 0 <= i < |s| => OfTxIn(s[i])))
  }

  function OfOutputs(s: seq<TxOut>): nat {
    Code(seq(|s|, i requires 0 <= i < |s| => OfTxOut(s[i])))
  }

  function OfText(o: Option<string>): nat {
    match o case None => 0 case Some(s) => 1 + OfString(s)
  }

  function OfBody(b: TxBody): nat {
    Code([OfInt(b.timestamp), OfInputs(b.inputs), OfOutputs(b.outputs), OfText(b.coinbase)])
  }

  function HeaderNumbers(h: Header): seq<nat> {
    var place, content := [OfInt(h.version), OfInt(h.height), h.prevHash], [OfInt(h.timestamp), OfInt(h.difficulty)];
    place + content + [h.merkleRoot, OfInt(h.nonce)]
  }

  function OfHeader(h: Header): nat {
    Code(HeaderNumbers(h))
  }

  lemma {:induction false} TxInInjective(a: TxIn, b: TxIn)
    requires OfTxIn(a) == OfTxIn(b)
    ensures a == b
  {
    hide Code, OfString;
    var s := [a.prev.txid, OfInt(a.prev.vout), OfString(a.pubkey), OfString(a.signature)];
    var t := [b.prev.txid, OfInt(b.prev.vout), OfString(b.pubkey), OfString(b.signature)];
    CodeInjective(s, t);
    assert s[0] == t[0] && s[1] == t[1] && s[2] == t[2] && s[3] == t[3];
    StringInjective(a.pubkey, b.pubkey);
    StringInjective(a.signature, b.signature);
  }

  lemma {:induction false} TxOutInjective(a: TxOut, b: TxOut)
    requires OfTxOut(a) == OfTxOut(b)
    ensures a == b
  {
    hide Code, OfString;
    var s, t := [OfString(a.address), OfInt(a.amount)], [OfString(b.address), OfInt(b.amount)];
    CodeInjective(s, t);
    assert s[0] == t[0] && s[1] == t[1];
    StringInjective(a.address, b.address);
  }

  lemma {:induction false} InputsInjective(a: seq<TxIn>, b: seq<TxIn>)
    requires OfInputs(a) == OfInputs(b)
    ensures a == b
  {
    hide Code, OfTxIn;
    var s, t := seq(|a|, i requires 0 <= i < |a| => OfTxIn(a[i])), seq(|b|, i requires 0 <= i < |b| => OfTxIn(b[i]));
    CodeInjective(s, t);
    forall i | 0 <= i < |a| ensures a[i] == b[i] {
      assert s[i] == OfTxIn(a[i]) && t[i] == OfTxIn(b[i]);
      TxInInjective(a[i], b[i]);
    }
  }

  lemma {:induction false} OutputsInjective(a: seq<TxOut>, b: seq<TxOut>)
    requires OfOutputs(a) == OfOutputs(b)
    ensures a == b
  {
    hide Code, OfTxOut;
    var s, t := seq(|a|, i requires 0 <= i < |a| => OfTxOut(a[i])), seq(|b|, i requires 0 <= i < |b| => OfTxOut(b[i]));
    CodeInjective(s, t);
    forall i | 0 <= i < |a| ensures a[i] == b[i] {
      assert s[i] == OfTxOut(a[i]) && t[i] == OfTxOut(b[i]);
      TxOutInjective(a[i], b[i]);
    }
  }

  lemma {:induction false} BodyInjective(a: TxBody, b: TxBody)
    requires OfBody(a) == OfBody(b)
    ensures a == b
  {
    hide Code, OfInputs, OfOutputs, OfString;
    var s := [OfInt(a.timestamp), OfInputs(a.inputs), OfOutputs(a.outputs), OfText(a.coinbase)];
    var t := [OfInt(b.timestamp), OfInputs(b.inputs), OfOutputs(b.outputs), OfText(b.coinbase)];
    CodeInjective(s, t);
    assert s[0] == t[0] && s[1] == t[1] && s[2] == t[2] && s[3] == t[3];
    InputsInjective(a.inputs, b.inputs);
    OutputsInjective(a.outputs, b.outputs);
    if a.coinbase.Some? && b.coinbase.Some? {
      StringInjective(a.coinbase.value, b.coinbase.value);
    }
  }

  lemma {:induction false} HeaderInjective(a: Header, b: Header)
    requires OfHeader(a) == OfHeader(b)
    ensures a == b
  {
    hide Code;
    var s, t := HeaderNumbers(a), HeaderNumbers(b);
    CodeInjective(s, t);
    assert s[0] == t[0] && s[1] == t[1] && s[2] == t[2] && s[3] == t[3] && s[4] == t[4] && s[5] == t[5] && s[6] == t[6];
  }

  /** Collision-free hashes; every key owns the address it spells, every signature verifies, everything is small. */
  function Ideal(): Crypto {
    Crypto(body => 2 * OfBody(body), header => OfHeader(header), (x, y) => 2 * Mark(x, y) + 1, 0,
           pubkey => pubkey, _ => true, (_, _, _, _) => true, _ => 0, _ => 0)
  }

  /** All collision-freedom hypotheses at once can be met. */
  lemma {:induction false} IdealIsCollisionFree()
    ensures Ideal().CollisionFree()
  {
    hide OfBody, OfHeader, Mark;
    var c := Ideal();
    forall a, b | c.TxId(a) == c.TxId(b) ensures a == b {
      BodyInjective(a, b);
    }
    forall a, b | c.HeaderHash(a) == c.HeaderHash(b) ensures a == b {
      HeaderInjective(a, b);
    }
    forall a, b, x, y | c.Pair(a, b) == c.Pair(x, y) ensures a == x && b == y {
      MarkInjective(a, b, x, y);
    }
  }
}
