/** The live-session envelope: its canonical form (the associated data of the AEAD),
    its nonce, and sealing and opening over an ideal AEAD.

    The AEAD is idealised as a log of what was sealed under one key. Opening looks the
    nonce, the associated data and the ciphertext up in that log, and fails when they
    were never sealed together. Ciphertext bytes are chosen by the environment. */
module Envelopes {
  import opened Base

  const SESSION_VERSION: Byte := 1
  const CLASS_READ: Byte := 1
  const CLASS_EXEC: Byte := 3
  const MAX_JOB_BYTES: nat := 0x1_0000
  const MAX_RESULT_BYTES: nat := 0x10_0000
  const MAX_SESSION_SEQ: nat := 0xFFFF_FFFF
  const MAX_UINT64: nat := 0xFFFF_FFFF_FFFF_FFFF
  const TAG_BYTES: nat := 16

  type SessionID = b: Bytes | |b| == 16 witness seq(16, _ => 0)

  /** `number` is the sequence number, `kind` the class. */
  datatype Envelope = Envelope(version: Byte, sessionID: string, number: nat, kind: Byte, payload: Bytes)

  // ----- session identifiers

  function IDString(id: SessionID): string { HexEncode(id) }

  function ParseSessionID(s: string): Option<SessionID> {
    if LowerHex(s, 32) then Some(HexDecode(s)) else None
  }

  /** A string names exactly one session, and only its canonical spelling parses. */
  lemma ParseSessionIDExact(s: string, id: SessionID)
    ensures ParseSessionID(s) == Some(id) <==> s == IDString(id)
  {
    HexRoundTrip(id);
    if LowerHex(s, 32) {
      HexCanonical(s);
    }
  }

  // ----- canonical form and nonce

  predicate WellFormed(e: Envelope) {
    && ParseSessionID(e.sessionID).Some?
    && e.version == SESSION_VERSION
    && 0 < e.number <= MAX_SESSION_SEQ
    && CLASS_READ <= e.kind <= CLASS_EXEC
    && TAG_BYTES < |e.payload| <= 0xFFFF_FFFF
  }

  function CanonicalBytes(e: Envelope): (ad: Bytes)
    requires WellFormed(e)
    ensures |ad| == 30
  {
    Pow256Values();
    [e.version] + ParseSessionID(e.sessionID).value + BigEndian(e.number, 8) + [e.kind] + BigEndian(|e.payload|, 4)
  }

  function Nonce(number: nat): (n: Bytes)
    requires number <= MAX_UINT64
    ensures |n| == 12
  {
    Pow256Values();
    [0, 0, 0, 0] + BigEndian(number, 8)
  }

  /** Writes `b` into `buffer` from `at` on. */
  method Put(buffer: array<Byte>, at: nat, b: Bytes)
    requires at + |b| <= buffer.Length
    modifies buffer
    ensures buffer[..] == old(buffer[..at]) + b + old(buffer[at + |b|..])
  {
    forall i | 0 <= i < |b| {
      buffer[at + i] := b[i];
    }
  }

  method Canonical(e: Envelope) returns (r: Option<Bytes>)
    ensures r == if WellFormed(e) then Some(CanonicalBytes(e)) else None
  {
    if !WellFormed(e) {
      return None;
    }
    Pow256Values();
    var id := ParseSessionID(e.sessionID).value;
    var ad := new Byte[30](_ => 0);
    ad[0] := e.version;
    Put(ad, 1, id);
    Put(ad, 17, BigEndian(e.number, 8));
    ad[25] := e.kind;
    Put(ad, 26, BigEndian(|e.payload|, 4));
    assert ad[..] == CanonicalBytes(e);
    return Some(ad[..]);
  }

  method SessionNonce(number: nat) returns (n: Bytes)
    requires number <= MAX_UINT64
    ensures n == Nonce(number)
  {
    Pow256Values();
    var nonce := new Byte[12](_ => 0);
    Put(nonce, 4, BigEndian(number, 8));
    return nonce[..];
  }

  lemma NonceInjective(m: nat, n: nat)
    requires m <= MAX_UINT64 && n <= MAX_UINT64
    ensures Nonce(m) == Nonce(n) <==> m == n
  {
    Pow256Values();
    if Nonce(m) == Nonce(n) {
      assert Nonce(m)[4..] == BigEndian(m, 8) && Nonce(n)[4..] == BigEndian(n, 8);
      BigEndianInjective(m, n, 8);
    }
  }

  /** The associated data fixes every header field and the payload length: nothing in
      the header can be relabelled without changing it. */
  lemma CanonicalInjective(d: Envelope, e: Envelope)
    requires WellFormed(d) && WellFormed(e)
    requires CanonicalBytes(d) == CanonicalBytes(e)
    ensures d.(payload := e.payload) == e && |d.payload| == |e.payload|
  {
    Pow256Values();
    var x, y := CanonicalBytes(d), CanonicalBytes(e);
    var i, j := ParseSessionID(d.sessionID).value, ParseSessionID(e.sessionID).value;
    assert x[1..17] == i && y[1..17] == j;
    ParseSessionIDExact(d.sessionID, i);
    ParseSessionIDExact(e.sessionID, j);
    assert x[17..25] == BigEndian(d.number, 8) && y[17..25] == BigEndian(e.number, 8);
    BigEndianInjective(d.number, e.number, 8);
    assert x[25] == d.kind && y[25] == e.kind;
    assert x[26..] == BigEndian(|d.payload|, 4) && y[26..] == BigEndian(|e.payload|, 4);
    BigEndianInjective(|d.payload|, |e.payload|, 4);
  }

  predicate Validate(e: Envelope, id: SessionID, maxPayload: nat) {
    WellFormed(e) && e.sessionID == IDString(id) && |e.payload| <= maxPayload
  }

  // ----- the ideal AEAD

  /** One call of Seal under a key: the envelope it produced and the plaintext in it. */
  datatype Sealing = Sealing(envelope: Envelope, plaintext: Bytes)

  /** The AEAD's view: same nonce, same associated data, same ciphertext. */
  predicate Authentic(r: Sealing, e: Envelope)
    requires WellFormed(e)
  {
    && WellFormed(r.envelope)
    && Nonce(r.envelope.number) == Nonce(e.number)
    && CanonicalBytes(r.envelope) == CanonicalBytes(e)
    && r.envelope.payload == e.payload
  }

  lemma AuthenticIsEqual(r: Sealing, e: Envelope)
    requires WellFormed(e)
    ensures Authentic(r, e) <==> r.envelope == e
  {
    if Authentic(r, e) {
      CanonicalInjective(r.envelope, e);
    }
  }

  function Lookup(log: seq<Sealing>, e: Envelope): Option<Bytes>
    requires WellFormed(e)
  {
    if log == [] then None
    else if Authentic(log[0], e) then Some(log[0].plaintext)
    else Lookup(log[1..], e)
  }

  /** sealSession: the envelope for a plaintext, given the ciphertext the cipher yields. */
  function SealSession(id: SessionID, number: nat, kind: Byte, plaintext: Bytes, ciphertext: Bytes, capBytes: nat): (r: Option<Envelope>)
    requires |ciphertext| == |plaintext| + TAG_BYTES
    requires capBytes >= TAG_BYTES
  {
    var e := Envelope(SESSION_VERSION, IDString(id), number, kind, ciphertext);
    if |plaintext| == 0 || |plaintext| > capBytes - TAG_BYTES || !WellFormed(e) then None else Some(e)
  }

  datatype Opened = Plain(plaintext: Bytes) | ErrEnvelope | ErrSequence | ErrSessionAuth

  function OpenSession(log: seq<Sealing>, e: Envelope, id: SessionID, expected: nat, capBytes: nat): Opened {
    if !Validate(e, id, capBytes) then ErrEnvelope
    else if e.number != expected then ErrSequence
    else match Lookup(log, e)
      case None => ErrSessionAuth
      case Some(p) => Plain(p)
  }

  lemma {:induction false} LookupIsMember(log: seq<Sealing>, e: Envelope)
    requires WellFormed(e)
    ensures Lookup(log, e).Some? ==> Sealing(e, Lookup(log, e).value) in log
    ensures Lookup(log, e).None? ==> forall r :: r in log ==> r.envelope != e
  {
    if log != [] {
      AuthenticIsEqual(log[0], e);
      LookupIsMember(log[1..], e);
      assert log == [log[0]] + log[1..];
    }
  }

  /** What opens was sealed, unchanged in every field, under the expected number; and
      everything sealed for this session within the cap opens. */
  lemma OpenExactly(log: seq<Sealing>, e: Envelope, id: SessionID, expected: nat, capBytes: nat)
    ensures OpenSession(log, e, id, expected, capBytes).Plain? <==>
            Validate(e, id, capBytes) && e.number == expected && exists r :: r in log && r.envelope == e
    ensures OpenSession(log, e, id, expected, capBytes).Plain? ==>
            Sealing(e, OpenSession(log, e, id, expected, capBytes).plaintext) in log
  {
    if WellFormed(e) {
      LookupIsMember(log, e);
    }
  }

  /** Where the fields of the associated data lie. */
  lemma CanonicalLayout(e: Envelope)
    requires WellFormed(e)
    ensures var ad := CanonicalBytes(e);
            && |ad| == 30 && ad[0] == e.version && HexEncode(ad[1..17]) == e.sessionID
            && FromBigEndian(ad[17..25]) == e.number && ad[25] == e.kind && FromBigEndian(ad[26..30]) == |e.payload|
  {
    Pow256Values();
    var ad := CanonicalBytes(e);
    assert ad[1..17] == ParseSessionID(e.sessionID).value;
    HexCanonical(e.sessionID);
    assert ad[17..25] == BigEndian(e.number, 8) && ad[26..30] == BigEndian(|e.payload|, 4);
    BigEndianRoundTrip(e.number, 8);
    BigEndianRoundTrip(|e.payload|, 4);
  }

  /** The nonce is a zero field of four bytes and the number. */
  lemma NonceLayout(number: nat)
    requires number <= MAX_UINT64
    ensures Nonce(number)[..4] == [0, 0, 0, 0] && FromBigEndian(Nonce(number)[4..]) == number
  {
    Pow256Values();
    assert Nonce(number)[4..] == BigEndian(number, 8);
    BigEndianRoundTrip(number, 8);
  }

  /** Sealing succeeds exactly for a plaintext that is not empty and fits, under a number and
      a class in range. */
  lemma SealsExactly(id: SessionID, number: nat, kind: Byte, plaintext: Bytes, ciphertext: Bytes, capBytes: nat)
    requires |ciphertext| == |plaintext| + TAG_BYTES && TAG_BYTES <= capBytes <= 0xFFFF_FFFF
    ensures var e := SealSession(id, number, kind, plaintext, ciphertext, capBytes);
            && (e.Some? <==> 0 < |plaintext| <= capBytes - TAG_BYTES && 1 <= number <= MAX_SESSION_SEQ && 1 <= kind <= 3)
            && (e.Some? ==> e.value.number == number && e.value.kind == kind && e.value.payload == ciphertext && e.value.sessionID == HexEncode(id))
  {
    ParseSessionIDExact(IDString(id), id);
  }

  /** What is sealed opens, under its number and for its session, to its plaintext; and under
      no other number. */
  lemma SealedOpens(log: seq<Sealing>, id: SessionID, number: nat, kind: Byte, plaintext: Bytes, ciphertext: Bytes, capBytes: nat, expected: nat)
    requires |ciphertext| == |plaintext| + TAG_BYTES && TAG_BYTES <= capBytes <= 0xFFFF_FFFF
    requires SealSession(id, number, kind, plaintext, ciphertext, capBytes).Some?
    requires var e := SealSession(id, number, kind, plaintext, ciphertext, capBytes).value;
             forall r :: r in log ==> r.envelope != e
    ensures var e := SealSession(id, number, kind, plaintext, ciphertext, capBytes).value;
            OpenSession(log + [Sealing(e, plaintext)], e, id, expected, capBytes) == if expected == number then Plain(plaintext) else ErrSequence
  {
    hide SealSession;
    var e := SealSession(id, number, kind, plaintext, ciphertext, capBytes).value;
    SealsExactly(id, number, kind, plaintext, ciphertext, capBytes);
    SealedValid(id, number, kind, plaintext, ciphertext, capBytes);
    var more := log + [Sealing(e, plaintext)];
    assert more[|log|] == Sealing(e, plaintext);
    OpenExactly(more, e, id, expected, capBytes);
    if expected == number {
      var p := OpenSession(more, e, id, expected, capBytes).plaintext;
      assert Sealing(e, p) in more;
    }
  }

  lemma SealedValid(id: SessionID, number: nat, kind: Byte, plaintext: Bytes, ciphertext: Bytes, capBytes: nat)
    requires |ciphertext| == |plaintext| + TAG_BYTES && TAG_BYTES <= capBytes <= 0xFFFF_FFFF
    requires SealSession(id, number, kind, plaintext, ciphertext, capBytes).Some?
    ensures Validate(SealSession(id, number, kind, plaintext, ciphertext, capBytes).value, id, capBytes)
  {
  }

  /** What Validate accepts: version 1, this session, a number and a class in range, and a
      payload longer than its tag and within the cap. */
  lemma ValidateExactly(e: Envelope, id: SessionID, maxPayload: nat)
    requires maxPayload <= 0xFFFF_FFFF
    ensures Validate(e, id, maxPayload) <==>
            && e.version == 1 && e.sessionID == HexEncode(id) && 1 <= e.number <= 0xFFFF_FFFF && 1 <= e.kind <= 3
            && 16 < |e.payload| <= maxPayload
  {
    ParseSessionIDExact(e.sessionID, id);
  }
}
