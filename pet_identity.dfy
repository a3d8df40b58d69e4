/** The identity printed on a pet's tag: the pet code, the public URL built from it, and
    the QR image that encodes that URL. */
module PetIdentity {

  import opened Wrappers
  import opened JsValues
  import opened JsStrings
  import opened Radix

  const DefaultBaseUrl: string := "http://localhost:3000"

  /** What `Math.random().toString(36)` can produce for a number in [0, 1): "0" or "0."
      followed by base-36 digits. */
  predicate IsRandomRendering(r: string) {
    r == "0" || (|r| >= 2 && r[..2] == "0." && forall i :: 2 <= i < |r| ==> IsBase36Char(r[i]))
  }

  /** A character of an upper-cased base-36 rendering. */
  predicate IsUpperBase36(c: char) {
    '0' <= c <= '9' || 'A' <= c <= 'Z'
  }

  /** `generatePetCode()`, with `Date.now()` and `Math.random().toString(36)` as parameters:
      "PET", an underscore, the timestamp in upper-case base 36, then characters 2 to 5 of
      the random rendering, upper-cased. */
  function GeneratePetCode(nowMs: nat, random36: string): string {
    "PET" + "_" + ToUpperCase(ToRadix(nowMs, 36)) + ToUpperCase(Substring(random36, 2, 6))
  }

  lemma LowerUpperBase36(s: string)
    requires forall i :: 0 <= i < |s| ==> IsBase36Char(s[i])
    ensures ToLowerCase(ToUpperCase(s)) == s
    ensures forall i :: 0 <= i < |s| ==> IsUpperBase36(ToUpperCase(s)[i])
  {
    assert forall i :: 0 <= i < |s| ==> ToLowerCase(ToUpperCase(s))[i] == s[i];
  }

  /** Characters 2 to 5 of a random rendering: at most four base-36 digits. */
  lemma RandomPartIsBase36(random36: string)
    requires IsRandomRendering(random36)
    ensures var rnd := Substring(random36, 2, 6);
            |rnd| <= 4 && forall i :: 0 <= i < |rnd| ==> IsBase36Char(rnd[i])
  {
    if random36 != "0" {
      assert Substring(random36, 2, 6) == random36[2..if |random36| < 6 then |random36| else 6];
    }
  }

  /** Where the two parts sit in `PET_` followed by them. */
  lemma PrefixedLayout(a: string, b: string)
    requires forall i :: 0 <= i < |a| ==> IsUpperBase36(a[i])
    requires forall i :: 0 <= i < |b| ==> IsUpperBase36(b[i])
    ensures var code := "PET_" + a + b;
            |code| == 4 + |a| + |b| && code[..4] == "PET_" && code[4..4 + |a|] == a
            && code[4 + |a|..] == b
            && forall i :: 4 <= i < |code| ==> IsUpperBase36(code[i])
  {
    var code := "PET_" + a + b;
    assert forall i :: 4 <= i < |code| ==>
      (i < 4 + |a| && code[i] == a[i - 4]) || (i >= 4 + |a| && code[i] == b[i - 4 - |a|]);
  }

  /** The shape of every pet code: the prefix `PET_`, then the timestamp, which reads back
      from the code, then at most four further characters; all are upper-case base-36
      characters. */
  lemma PetCodeShape(nowMs: nat, random36: string)
    requires IsRandomRendering(random36)
    ensures var code := GeneratePetCode(nowMs, random36);
            var t := |ToRadix(nowMs, 36)|;
            4 + t <= |code| <= 4 + t + 4
            && code[..4] == "PET_"
            && ParseRadix(ToLowerCase(code[4..4 + t]), 36) == Some(nowMs)
            && forall i :: 4 <= i < |code| ==> IsUpperBase36(code[i])
  {
    var stamp := ToRadix(nowMs, 36);
    var rnd := Substring(random36, 2, 6);
    RandomPartIsBase36(random36);
    LowerUpperBase36(stamp);
    LowerUpperBase36(rnd);
    assert GeneratePetCode(nowMs, random36) == "PET_" + ToUpperCase(stamp) + ToUpperCase(rnd);
    PrefixedLayout(ToUpperCase(stamp), ToUpperCase(rnd));
    ParseToRadix(nowMs, 36);
  }

  /** The timestamp and the random part are not delimited, but codes minted at instants
      whose base-36 renderings have the same length are equal only when the instants and
      the random parts are. */
  lemma PetCodeDeterminesParts(n1: nat, r1: string, n2: nat, r2: string)
    requires |ToRadix(n1, 36)| == |ToRadix(n2, 36)|
    requires GeneratePetCode(n1, r1) == GeneratePetCode(n2, r2)
    requires IsRandomRendering(r1) && IsRandomRendering(r2)
    ensures n1 == n2
    ensures ToUpperCase(Substring(r1, 2, 6)) == ToUpperCase(Substring(r2, 2, 6))
  {
    PetCodeShape(n1, r1);
    PetCodeShape(n2, r2);
    var c := GeneratePetCode(n1, r1);
    var t := |ToRadix(n1, 36)|;
    assert Some(n1) == ParseRadix(ToLowerCase(c[4..4 + t]), 36) == Some(n2);
    assert c[4 + t..] == ToUpperCase(Substring(r1, 2, 6));
    assert GeneratePetCode(n2, r2)[4 + t..] == ToUpperCase(Substring(r2, 2, 6));
  }

  /** `process.env.BASE_URL || 'http://localhost:3000'`. */
  function BaseUrl(env: Option<string>): (b: string)
    ensures EnvSet(env) ==> b == env.value
    ensures !EnvSet(env) ==> b == DefaultBaseUrl
  {
    EnvOr(env, DefaultBaseUrl)
  }

  /** The public page of a pet: `{base}/pet/{code}`. */
  function PetUrl(env: Option<string>, code: string): string {
    BaseUrl(env) + "/pet/" + code
  }

  /** The code a public URL refers to, when it has the shape `{base}/pet/{code}`. */
  function CodeOfUrl(env: Option<string>, url: string): (r: Option<string>)
    ensures r.Some? ==> PetUrl(env, r.value) == url
  {
    var prefix := BaseUrl(env) + "/pet/";
    if |prefix| <= |url| && url[..|prefix|] == prefix then Some(url[|prefix|..]) else None
  }

  /** The URL printed on the tag leads back to the pet's code, and to no other. */
  lemma CodeOfPetUrl(env: Option<string>, code: string)
    ensures CodeOfUrl(env, PetUrl(env, code)) == Some(code)
  {
    var prefix := BaseUrl(env) + "/pet/";
    assert PetUrl(env, code) == prefix + code;
    assert (prefix + code)[..|prefix|] == prefix;
    assert (prefix + code)[|prefix|..] == code;
  }

  /** The options passed to `QRCode.toDataURL`. */
  datatype QrOptions = QrOptions(width: nat, margin: nat, dark: string, light: string,
                                 errorCorrectionLevel: char)

  const TagQrOptions: QrOptions := QrOptions(300, 2, "#000000", "#FFFFFF", 'H')

  /** The data URL `QRCode.toDataURL` returns, identified by the text it encodes and the
      options it was drawn with; the image bytes are not part of the model. */
  datatype QrCode = QrDataUrl(encoded: string, options: QrOptions)

  /** The image both `registerPet` and `regenerateQR` draw for a pet's URL. */
  function TagQrCode(url: string): QrCode {
    QrDataUrl(url, TagQrOptions)
  }

  /** Scanning the tag of a pet with code `code` opens that pet's page. */
  lemma TagLeadsToPet(env: Option<string>, code: string)
    ensures CodeOfUrl(env, TagQrCode(PetUrl(env, code)).encoded) == Some(code)
  {
    CodeOfPetUrl(env, code);
  }
}
