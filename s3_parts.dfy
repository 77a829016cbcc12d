/**
 * The byte-range arithmetic of the S3 multipart copy in lib/s3/storage.go:
 * how many parts an object of a given length is cut into, and which
 * inclusive range ("bytes=from-to") each part copy asks for.
 *
 * PartRange is the arithmetic exactly as the copy loop computes it. Its
 * first part is one byte longer than the rest, it asks for one byte past
 * the end when the length is a multiple of the part size, and its last
 * range is empty when the length is one more than a multiple. The lemmas
 * below state those cases; IntendedPartRange is the partition the loop
 * evidently means, proved to tile the object exactly.
 */
module S3Parts {

  /** maxUploadSizeBytes: the largest object copied in one request, and the size of a part. */
  const MaxUploadSizeBytes: nat := 4294967296

  /** An inclusive byte range, as in an HTTP Range header "bytes=from-to". */
  datatype ByteRange = ByteRange(from: int, to: int)

  predicate InRange(r: ByteRange, b: int)
  {
    r.from <= b <= r.to
  }

  /**
   * The number of part copies for an object of `length` bytes: the integer
   * ceiling of length / MaxUploadSizeBytes (the source rounds a float64 quotient up).
   */
  function PartCount(length: int): (k: nat)
    ensures length <= 0 ==> k == 0
    ensures length > 0 ==> (k - 1) * MaxUploadSizeBytes < length <= k * MaxUploadSizeBytes
    ensures length > MaxUploadSizeBytes ==> k >= 2
  {
    if length <= 0 then 0 else (length + MaxUploadSizeBytes - 1) / MaxUploadSizeBytes
  }

  /** The range the copy loop requests for part `i` (0-based) of an object of `length` bytes. */
  function PartRange(i: nat, length: int): ByteRange
  {
    var from := if i != 0 then i * MaxUploadSizeBytes + 1 else i * MaxUploadSizeBytes;
    var to := if i * MaxUploadSizeBytes + MaxUploadSizeBytes > length then length - 1
              else i * MaxUploadSizeBytes + MaxUploadSizeBytes;
    ByteRange(from, to)
  }

  /** Part 0 starts at byte 0 and, for a multipart object, spans MaxUploadSizeBytes + 1 bytes. */
  lemma FirstPartRange(length: int)
    requires length > MaxUploadSizeBytes
    ensures PartRange(0, length) == ByteRange(0, MaxUploadSizeBytes)
    ensures PartRange(0, length).to - PartRange(0, length).from + 1 == MaxUploadSizeBytes + 1
  {
  }

  /** Every part but the last ends on the byte just before the next part starts. */
  lemma PartRangesAbut(i: nat, length: int)
    requires i + 1 < PartCount(length)
    ensures PartRange(i, length).to + 1 == PartRange(i + 1, length).from
    ensures PartRange(i, length).to == (i + 1) * MaxUploadSizeBytes
  {
  }

  /** When the length is not a multiple of the part size, the last range ends on the last byte. */
  lemma LastPartEndsAtLastByte(length: int)
    requires length > MaxUploadSizeBytes && length % MaxUploadSizeBytes != 0
    ensures PartRange(PartCount(length) - 1, length).to == length - 1
  {
  }

  /** When the length is a multiple k * M of the part size, the last range ends one byte past the object. */
  lemma LastPartOverrunsOnMultiple(k: nat)
    requires k >= 2
    ensures var length := k * MaxUploadSizeBytes;
      PartCount(length) == k && PartRange(k - 1, length) == ByteRange(length - MaxUploadSizeBytes + 1, length)
  {
    var length := k * MaxUploadSizeBytes;
    assert (length + MaxUploadSizeBytes - 1) / MaxUploadSizeBytes == k;
  }

  /** When the length is (k - 1) * M + 1, the last range is empty: it starts at `length` and ends before it. */
  lemma LastPartEmptyPastMultiple(k: nat)
    requires k >= 2
    ensures var length := (k - 1) * MaxUploadSizeBytes + 1;
      PartCount(length) == k && PartRange(k - 1, length) == ByteRange(length, length - 1)
  {
    var length := (k - 1) * MaxUploadSizeBytes + 1;
    assert (length + MaxUploadSizeBytes - 1) / MaxUploadSizeBytes == k;
  }

  /** The part whose range holds byte `b` under the arithmetic as written. */
  function PartOf(b: nat): nat
  {
    if b == 0 then 0 else (b - 1) / MaxUploadSizeBytes
  }

  /** Every byte of the object is requested by exactly one part, the empty and overrunning ranges notwithstanding. */
  lemma EveryByteInOnePart(length: int, b: nat)
    requires b < length
    ensures PartOf(b) < PartCount(length) && InRange(PartRange(PartOf(b), length), b)
    ensures forall j: nat :: j < PartCount(length) && InRange(PartRange(j, length), b) ==> j == PartOf(b)
  {
  }

  /** The last range the copy loop asks for is empty or overruns exactly when length % M is 0 or 1. */
  lemma LastPartWellFormedIff(length: int)
    requires length > MaxUploadSizeBytes
    ensures var last := PartRange(PartCount(length) - 1, length);
      (last.from <= last.to <= length - 1) <==> (length % MaxUploadSizeBytes != 0 && length % MaxUploadSizeBytes != 1)
  {
  }

  /** The partition the loop evidently means: part i is [i * M, min((i + 1) * M, length) - 1]. */
  function IntendedPartRange(i: nat, length: int): ByteRange
  {
    var end := if (i + 1) * MaxUploadSizeBytes < length then (i + 1) * MaxUploadSizeBytes else length;
    ByteRange(i * MaxUploadSizeBytes, end - 1)
  }

  /**
   * The intended ranges tile the object: part 0 starts at 0, each range is
   * non-empty and at most M bytes, consecutive ranges abut, and the last ends
   * on the last byte.
   */
  lemma IntendedRangesTile(length: int)
    requires length > 0
    ensures IntendedPartRange(0, length).from == 0
    ensures IntendedPartRange(PartCount(length) - 1, length).to == length - 1
    ensures forall i: nat :: i < PartCount(length) ==>
      var r := IntendedPartRange(i, length);
      r.from <= r.to && r.to - r.from + 1 <= MaxUploadSizeBytes
    ensures forall i: nat :: i + 1 < PartCount(length) ==>
      IntendedPartRange(i, length).to + 1 == IntendedPartRange(i + 1, length).from
  {
  }
}
