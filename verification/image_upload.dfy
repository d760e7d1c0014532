/**
  The check the rich-text editor runs on an image before uploading it (`validateFn` in
  lib/cloudinary-upload.ts): the file must have an image MIME type and be at most 20 MB.
*/
module ImageUpload {

  const ImageMarker := "image/"
  const TypeNotSupported := "File type not supported."
  const TooBig := "File size too big (max 20MB)."

  /** The largest accepted size, in megabytes (units of 1024 * 1024 bytes). */
  const MaxMegabytes := 20

  /** A chosen file: its MIME type and its size in bytes. */
  datatype File = File(mimeType: string, size: nat)

  /** Accept the file, or reject it with the toast shown to the user. */
  datatype Verdict = Accepted | Rejected(toast: string)

  /** `s.includes(sub)`: `sub` occurs somewhere in `s`, checked from the front. */
  function Contains(s: string, sub: string): bool
    decreases |s|
  {
    if |sub| <= |s| && s[..|sub|] == sub then true
    else if |s| == 0 then false
    else Contains(s[1..], sub)
  }

  /** `s` has `sub` starting at position `i`. */
  predicate OccursAt(s: string, sub: string, i: nat)
  {
    i + |sub| <= |s| && s[i..i + |sub|] == sub
  }

  /** `Contains` finds exactly the occurrences there are. */
  lemma {:induction false} ContainsIffOccurs(s: string, sub: string)
    ensures Contains(s, sub) <==> exists i: nat :: OccursAt(s, sub, i)
    decreases |s|
  {
    if |sub| <= |s| && s[..|sub|] == sub {
      assert OccursAt(s, sub, 0);
    } else if |s| == 0 {
      forall i: nat
        ensures !OccursAt(s, sub, i)
      {
      }
    } else {
      ContainsIffOccurs(s[1..], sub);
      if Contains(s[1..], sub) {
        var i: nat :| OccursAt(s[1..], sub, i);
        assert s[i + 1..i + 1 + |sub|] == s[1..][i..i + |sub|];
        assert OccursAt(s, sub, i + 1);
      } else {
        forall i: nat
          ensures !OccursAt(s, sub, i)
        {
          if i == 0 {
          } else if OccursAt(s, sub, i) {
            assert s[1..][i - 1..i - 1 + |sub|] == s[i..i + |sub|];
            assert OccursAt(s[1..], sub, i - 1);
          }
        }
      }
    }
  }

  /** `file.size / 1024 / 1024 > 20`, in the source's floating-point division. */
  predicate OverLimit(size: nat)
  {
    (size as real) / 1024.0 / 1024.0 > MaxMegabytes as real
  }

  /** The limit is exactly 20 * 1024 * 1024 bytes: one byte more is over it. */
  lemma OverLimitIffBytes(size: nat)
    ensures OverLimit(size) <==> size > MaxMegabytes * 1024 * 1024
  {
    var x := size as real;
    assert x / 1024.0 / 1024.0 == x / 1048576.0;
  }

  /**
    `validateFn`: the type is checked first, then the size. Each rejection shows its
    own toast.
  */
  function Validate(f: File): (v: Verdict)
    ensures v.Accepted? <==> Contains(f.mimeType, ImageMarker) && !OverLimit(f.size)
    ensures !Contains(f.mimeType, ImageMarker) ==> v == Rejected(TypeNotSupported)
    ensures Contains(f.mimeType, ImageMarker) && OverLimit(f.size) ==> v == Rejected(TooBig)
  {
    if !Contains(f.mimeType, ImageMarker) then Rejected(TypeNotSupported)
    else if OverLimit(f.size) then Rejected(TooBig)
    else Accepted
  }

  /** The accepted files are exactly the image files of at most 20 MB, whatever the type's prefix. */
  lemma AcceptedFiles(f: File)
    ensures Validate(f).Accepted? <==>
      (exists i: nat :: OccursAt(f.mimeType, ImageMarker, i)) && f.size <= MaxMegabytes * 1024 * 1024
  {
    ContainsIffOccurs(f.mimeType, ImageMarker);
    OverLimitIffBytes(f.size);
  }

  /** A PNG of exactly 20 MB passes and one byte more fails on size. */
  lemma SizeLimitExamples()
    ensures Validate(File("image/png", 20 * 1024 * 1024)) == Accepted
    ensures Validate(File("image/png", 20 * 1024 * 1024 + 1)) == Rejected(TooBig)
  {
    assert "image/png"[..6] == ImageMarker;
    OverLimitIffBytes(20 * 1024 * 1024);
    OverLimitIffBytes(20 * 1024 * 1024 + 1);
  }

  /** A file whose type the browser does not know has the empty type and fails on type, however small. */
  lemma UnknownTypeRejected(size: nat)
    ensures Validate(File("", size)) == Rejected(TypeNotSupported)
  {
  }
}
