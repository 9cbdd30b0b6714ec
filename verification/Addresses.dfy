/** Mainnet addresses: 'M', then Base58 of a 20-byte payload and its 4-byte checksum (gamecoin/utils.py). */
module Addresses {
  import opened Prelude
  import opened Base58

  type Digest = d: seq<byte> | |d| == 32 witness seq(32, _ => 0)
  type Sha = seq<byte> -> Digest

  function Checksum(sha: Sha, payload: seq<byte>): (c: seq<byte>)
    ensures |c| == 4
  {
    sha(sha(payload))[..4]
  }

  function WithChecksum(sha: Sha, payload: seq<byte>): seq<byte> {
    payload + Checksum(sha, payload)
  }

  function AddressFromPubkey(sha: Sha, pubkey: seq<byte>): string {
    "M" + Encode(WithChecksum(sha, sha(pubkey)[..20]))
  }

  predicate ValidateAddress(sha: Sha, address: string) {
    |address| >= 2 && address[0] == 'M' &&
    var decoded := Decode(address[1..]);
    && decoded.Ok?
    && |decoded.value| == 24
    && decoded.value[20..] == Checksum(sha, decoded.value[..20])
    && "M" + Encode(decoded.value) == address
  }

  predicate HasNonzero(data: seq<byte>) {
    exists i :: 0 <= i < |data| && data[i] != 0
  }

  lemma {:induction false} EncodingRoundTrip(data: seq<byte>)
    ensures Encode(data) != ""
    ensures HasNonzero(data) ==> Decode(Encode(data)) == Ok(data)
    ensures !HasNonzero(data) ==> Decode(Encode(data)) == Ok(Zeros(|data| + 1))
  {
    EncodeThenDecode(data);
    var k := LeadingZeros(data);
    if k < |data| {
      assert data[k] != 0;
    }
  }

  /** A key's own address is valid exactly when its payload and checksum are not all zero bytes. */
  lemma {:induction false} EncodingIsValid(sha: Sha, payload: seq<byte>)
    requires |payload| == 20
    ensures ValidateAddress(sha, "M" + Encode(WithChecksum(sha, payload))) <==> HasNonzero(WithChecksum(sha, payload))
  {
    hide Encode, Decode;
    var data := WithChecksum(sha, payload);
    EncodingRoundTrip(data);
    assert ("M" + Encode(data))[1..] == Encode(data);
    assert data[..20] == payload && data[20..] == Checksum(sha, payload);
  }

  /** The address is 'M' and the Base58 of the payload and the first four bytes of its double hash. */
  ghost predicate EncodesPayload(sha: Sha, address: string, payload: seq<byte>) {
    var data := payload + sha(sha(payload))[..4];
    |payload| == 20 && HasNonzero(data) && address == "M" + Encode(data)
  }

  /** The valid addresses are exactly the encodings of a checksummed payload that is not all zero bytes. */
  lemma {:induction false} ValidAddressesAreEncodings(sha: Sha, address: string)
    ensures ValidateAddress(sha, address) <==> exists payload :: EncodesPayload(sha, address, payload)
  {
    hide Encode, Decode;
    if ValidateAddress(sha, address) {
      var decoded := Decode(address[1..]).value;
      assert WithChecksum(sha, decoded[..20]) == decoded;
      EncodingIsValid(sha, decoded[..20]);
      assert EncodesPayload(sha, address, decoded[..20]);
    }
    if payload :| EncodesPayload(sha, address, payload) {
      EncodingIsValid(sha, payload);
    }
  }

  /** A valid address determines its payload. */
  lemma {:induction false} AddressDeterminesPayload(sha: Sha, address: string, p: seq<byte>, q: seq<byte>)
    requires EncodesPayload(sha, address, p) && EncodesPayload(sha, address, q)
    ensures p == q
  {
    EncodingRoundTrip(WithChecksum(sha, p));
    EncodingRoundTrip(WithChecksum(sha, q));
    assert address[1..] == Encode(WithChecksum(sha, p)) == Encode(WithChecksum(sha, q));
    assert WithChecksum(sha, p)[..20] == p && WithChecksum(sha, q)[..20] == q;
  }

  /** A key's own address encodes the first 20 bytes of its hash, and is valid unless all 24 bytes are zero. */
  lemma {:induction false} OwnAddressIsValid(sha: Sha, pubkey: seq<byte>)
    ensures var payload := sha(pubkey)[..20];
            var data := payload + sha(sha(payload))[..4];
            && AddressFromPubkey(sha, pubkey) == "M" + Encode(data)
            && (ValidateAddress(sha, AddressFromPubkey(sha, pubkey)) <==> HasNonzero(data))
  {
    EncodingIsValid(sha, sha(pubkey)[..20]);
  }
}
