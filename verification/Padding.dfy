/** Bucket padding of the plaintext (padding.ts). */
module Padding {
  import opened Wrappers
  import opened Bytes
  import opened Envelope

  const PREFIX := 4

  datatype PadError = TooLong | NoBucket

  function Zeros(n: nat): bytes { seq(n, _ => 0) }

  /** Length prefix, payload, zero fill. */
  function Padded(payload: bytes, bucket: nat): (padded: bytes)
    requires |payload| < 0x1_0000_0000 && |payload| + PREFIX <= bucket
    ensures |padded| == bucket
  {
    U32(|payload|) + payload + Zeros(bucket - PREFIX - |payload|)
  }

  /** What `padPayload` answers: SABCL_OVERSIZED above the ceiling, the RangeError of the bucket search just below it. */
  function Pad(payload: bytes): Result<bytes, PadError> {
    if |payload| > MAX_PLAINTEXT_BYTES then Err(TooLong)
    else
      match PaddingBucketFor(|payload| + PREFIX)
      case None => Err(NoBucket)
      case Some(bucket) => Ok(Padded(payload, bucket))
  }

  /** What `unpadPayload` answers; None stands for SABCL_MALFORMED. */
  function Unpad(padded: bytes): Option<bytes> {
    if |padded| < PREFIX then None
    else
      var length := FromU32(padded);
      if length > |padded| - PREFIX then None else Some(padded[PREFIX..PREFIX + length])
  }

  /** `padPayload`: allocates the bucket zeroed, then writes the prefix and the payload into it. */
  method PadPayload(payload: bytes) returns (r: Result<array<byte>, PadError>)
    ensures r.Ok? <==> Pad(payload).Ok?
    ensures r.Ok? ==> fresh(r.value) && r.value[..] == Pad(payload).value
    ensures r.Err? ==> r.error == Pad(payload).error
  {
    if |payload| > MAX_PLAINTEXT_BYTES {
      return Err(TooLong);
    }
    LeastBucket(|payload| + PREFIX);
    var bucket := PaddingBucketFor(|payload| + PREFIX);
    if bucket.None? {
      return Err(NoBucket);
    }
    var padded := new byte[bucket.value](_ => 0);
    var prefix := U32(|payload|);
    for i := 0 to PREFIX
      invariant forall k :: 0 <= k < i ==> padded[k] == prefix[k]
      invariant forall k :: i <= k < bucket.value ==> padded[k] == 0
    {
      padded[i] := prefix[i];
    }
    for i := 0 to |payload|
      invariant forall k :: 0 <= k < PREFIX ==> padded[k] == prefix[k]
      invariant forall k :: 0 <= k < i ==> padded[PREFIX + k] == payload[k]
      invariant forall k :: PREFIX + i <= k < bucket.value ==> padded[k] == 0
    {
      padded[PREFIX + i] := payload[i];
    }
    ghost var whole := Padded(payload, bucket.value);
    forall k | 0 <= k < bucket.value ensures padded[k] == whole[k] {
      if PREFIX <= k < PREFIX + |payload| { assert padded[PREFIX + (k - PREFIX)] == payload[k - PREFIX]; }
    }
    assert padded[..] == whole;
    r := Ok(padded);
  }

  /** `unpadPayload`. */
  method UnpadPayload(padded: array<byte>) returns (r: Option<bytes>)
    ensures r == Unpad(padded[..])
  {
    if padded.Length < PREFIX {
      return None;
    }
    var length := FromU32(padded[..PREFIX]);
    assert padded[..][..PREFIX] == padded[..PREFIX];
    if length > padded.Length - PREFIX {
      return None;
    }
    r := Some(padded[PREFIX..PREFIX + length]);
  }

  /** Padding succeeds exactly up to 65532 bytes, lands in the least bucket, and comes off again. */
  lemma PadRoundTrip(payload: bytes)
    ensures Pad(payload).Ok? <==> |payload| <= 65_532
    ensures Pad(payload) == Err(NoBucket) <==> 65_532 < |payload| <= 65_536
    ensures Pad(payload).Ok? ==>
      && Unpad(Pad(payload).value) == Some(payload)
      && PaddingBucketFor(|payload| + PREFIX) == Some(|Pad(payload).value|)
  {
    LeastBucket(|payload| + PREFIX);
    if Pad(payload).Ok? {
      var padded := Pad(payload).value;
      assert padded[..PREFIX] == U32(|payload|);
      U32RoundTrip(|payload|);
      assert padded[PREFIX..PREFIX + |payload|] == payload;
    }
  }

  /** Unpadding answers with a payload exactly when the text is that payload, prefixed by its length, and any fill. */
  lemma UnpadInverts(padded: bytes, payload: bytes)
    requires |payload| < 0x1_0000_0000
    ensures Unpad(padded) == Some(payload) <==> U32(|payload|) + payload <= padded
  {
    U32RoundTrip(|payload|);
    if U32(|payload|) + payload <= padded {
      assert padded[..PREFIX] == (U32(|payload|) + payload)[..PREFIX] == U32(|payload|);
      assert padded[PREFIX..PREFIX + |payload|] == (U32(|payload|) + payload)[PREFIX..] == payload;
    }
    if Unpad(padded) == Some(payload) {
      var n := FromU32(padded);
      PrefixBack(padded);
      assert padded[..PREFIX + n] == padded[..PREFIX] + padded[PREFIX..PREFIX + n];
    }
  }

  /** Four bytes are the encoding of the number they denote. */
  lemma PrefixBack(b: bytes)
    requires |b| >= 4
    ensures FromU32(b) < 0x1_0000_0000 && U32(FromU32(b)) == b[..4]
  {
    var p, q, r, s := b[0] as int, b[1] as int, b[2] as int, b[3] as int;
    var n := FromU32(b);
    assert n == ((p * 256 + q) * 256 + r) * 256 + s;
    assert n / 256 == (p * 256 + q) * 256 + r && n % 256 == s;
    assert n / 0x1_0000 == n / 256 / 256 == p * 256 + q && n / 256 % 256 == r;
    assert n / 0x100_0000 == n / 0x1_0000 / 256 == p && n / 0x1_0000 % 256 == q;
  }
}
