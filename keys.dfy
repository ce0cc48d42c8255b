/**
 * The object key of a cropped face: the photo's key with one trailing
 * ".jpg" removed, then "_", the face counter in decimal, and ".jpg".
 */
module FaceKeys {

  const Jpg: string := ".jpg"

  predicate EndsWith(s: string, suffix: string) {
    |suffix| <= |s| && s[|s| - |suffix|..] == suffix
  }

  /** `str.removesuffix`: drops `suffix` once when `s` ends with it and it is not empty. */
  function RemoveSuffix(s: string, suffix: string): (r: string)
    ensures r <= s
    ensures suffix != [] && EndsWith(s, suffix) ==> r + suffix == s
    ensures !(suffix != [] && EndsWith(s, suffix)) ==> r == s
  {
    if suffix != [] && EndsWith(s, suffix) then s[..|s| - |suffix|] else s
  }

  /** Removing a suffix undoes appending it, exactly once. */
  lemma RemoveSuffixOfAppended(t: string, suffix: string)
    requires suffix != []
    ensures RemoveSuffix(t + suffix, suffix) == t
  {
    assert (t + suffix)[|t|..] == suffix;
    assert (t + suffix)[..|t|] == t;
  }

  predicate IsDigit(c: char) {
    '0' <= c <= '9'
  }

  function DigitChar(d: int): (c: char)
    requires 0 <= d < 10
    ensures IsDigit(c)
  {
    ('0' as int + d) as char
  }

  function DigitValue(c: char): (d: int)
    requires IsDigit(c)
  {
    c as int - '0' as int
  }

  /** The decimal text of a natural number, as an f-string writes an `int`. */
  function DecimalString(n: nat): (r: string)
    ensures |r| >= 1
    ensures forall i :: 0 <= i < |r| ==> IsDigit(r[i])
    ensures r[0] == '0' <==> n == 0
    decreases n
  {
    if n < 10 then [DigitChar(n)] else DecimalString(n / 10) + [DigitChar(n % 10)]
  }

  /** The number a string of decimal digits denotes. */
  function DecimalValue(s: string): (n: nat)
    requires forall i :: 0 <= i < |s| ==> IsDigit(s[i])
    decreases |s|
  {
    if s == [] then 0 else DecimalValue(s[..|s| - 1]) * 10 + DigitValue(s[|s| - 1])
  }

  /** Reading back the decimal text of `n` gives `n`. */
  lemma {:induction false} DecimalRoundTrip(n: nat)
    ensures DecimalValue(DecimalString(n)) == n
    decreases n
  {
    var s := DecimalString(n);
    if n >= 10 {
      DecimalRoundTrip(n / 10);
      assert s[..|s| - 1] == DecimalString(n / 10);
    }
  }

  /**
   * The key of face number `faceNum` of a photo: the photo key without a
   * trailing ".jpg", an underscore, the number in decimal, and ".jpg".
   */
  function FaceKey(objectKey: string, faceNum: nat): (r: string)
    ensures |r| == |RemoveSuffix(objectKey, Jpg)| + 1 + |DecimalString(faceNum)| + |Jpg|
    ensures r[..|RemoveSuffix(objectKey, Jpg)|] == RemoveSuffix(objectKey, Jpg)
    ensures r[|RemoveSuffix(objectKey, Jpg)|] == '_'
    ensures EndsWith(r, Jpg)
  {
    RemoveSuffix(objectKey, Jpg) + "_" + DecimalString(faceNum) + Jpg
  }

  /** With the counter at 0 the key is the stripped photo key followed by "_0.jpg". */
  lemma FirstFaceKey(objectKey: string)
    ensures FaceKey(objectKey, 0) == RemoveSuffix(objectKey, Jpg) + "_0.jpg"
    ensures EndsWith(FaceKey(objectKey, 0), Jpg)
  {
    assert DecimalString(0) == "0";
  }

  /**
   * Two face keys are equal exactly when the stripped photo keys and the
   * counters are: the counter is the digit run after the last "_".
   */
  lemma FaceKeyInjective(k1: string, n1: nat, k2: string, n2: nat)
    ensures FaceKey(k1, n1) == FaceKey(k2, n2) <==>
            RemoveSuffix(k1, Jpg) == RemoveSuffix(k2, Jpg) && n1 == n2
  {
    var b1, b2 := RemoveSuffix(k1, Jpg), RemoveSuffix(k2, Jpg);
    var d1, d2 := DecimalString(n1), DecimalString(n2);
    if FaceKey(k1, n1) == FaceKey(k2, n2) {
      var s1, s2 := b1 + "_" + d1, b2 + "_" + d2;
      assert s1 + Jpg == s2 + Jpg;
      assert s1 == (s1 + Jpg)[..|s1|];
      assert s1 == s2;
      SplitAtLastSeparator(b1, d1, b2, d2);
      DecimalRoundTrip(n1);
      DecimalRoundTrip(n2);
    }
  }

  /** `b + "_" + d` with `d` all digits determines `b` and `d`. */
  lemma SplitAtLastSeparator(b1: string, d1: string, b2: string, d2: string)
    requires forall i :: 0 <= i < |d1| ==> IsDigit(d1[i])
    requires forall i :: 0 <= i < |d2| ==> IsDigit(d2[i])
    requires b1 + "_" + d1 == b2 + "_" + d2
    ensures b1 == b2 && d1 == d2
  {
    var s := b1 + "_" + d1;
    assert s == b2 + "_" + d2;
    assert forall p :: |s| - |d1| <= p < |s| ==> IsDigit(s[p]);
    assert forall p :: |s| - |d2| <= p < |s| ==> IsDigit(s[p]);
    assert s[|s| - |d1| - 1] == '_';
    assert s[|s| - |d2| - 1] == '_';
    assert |d1| == |d2|;
    assert d1 == s[|s| - |d1|..];
    assert b1 == s[..|b1|];
  }

  /** "photo1.jpg" gives "photo1_0.jpg". */
  lemma StrippedKeyExample()
    ensures FaceKey("photo1.jpg", 0) == "photo1_0.jpg"
  {
    FirstFaceKey("photo1.jpg");
    assert "photo1.jpg" == "photo1" + Jpg;
    RemoveSuffixOfAppended("photo1", Jpg);
  }

  /** A key without ".jpg" at its end only gets "_0.jpg" appended. */
  lemma PlainKeyExample()
    ensures FaceKey("photo1", 0) == "photo1_0.jpg"
  {
    FirstFaceKey("photo1");
    assert "photo1"[2] != Jpg[0];
    assert !EndsWith("photo1", Jpg);
  }

  /** Only one ".jpg" is removed: "a.jpg.jpg" gives "a.jpg_0.jpg". */
  lemma DoubleSuffixExample()
    ensures FaceKey("a.jpg.jpg", 0) == "a.jpg_0.jpg"
  {
    FirstFaceKey("a.jpg.jpg");
    assert "a.jpg.jpg" == "a.jpg" + Jpg;
    RemoveSuffixOfAppended("a.jpg", Jpg);
  }

  /** "a.jpg" and "a" are different photos whose first faces share one key. */
  lemma FaceKeyCollision()
    ensures "a.jpg" != "a" && FaceKey("a.jpg", 0) == FaceKey("a", 0)
  {
    RemoveSuffixOfAppended("a", Jpg);
    assert "a.jpg" == "a" + Jpg;
    assert !EndsWith("a", Jpg);
    FirstFaceKey("a.jpg");
    FirstFaceKey("a");
  }
}
