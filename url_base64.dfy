/** `urlBase64ToUint8Array` of client/src/components/NotificationPrompt.jsx: a
    VAPID key in the URL-safe alphabet of section 5 of RFC 4648 is padded and
    rewritten into the standard alphabet of section 4, decoded by the browser's
    `atob` (the parameter `atob`, which yields None where the browser would
    throw), and copied byte by byte into a fresh array. */
module UrlBase64 {
  import opened Common

  type byte = bv8

  /** `(4 - len % 4) % 4` */
  function PadCount(n: nat): (k: nat)
    ensures k <= 3
    ensures (n + k) % 4 == 0
    ensures n % 4 == 0 ==> k == 0
  {
    (4 - n % 4) % 4
  }

  /** No shorter padding would do, so the count is the least that completes a quantum. */
  lemma PadCountLeast(n: nat, j: nat)
    requires (n + j) % 4 == 0
    ensures PadCount(n) <= j
  {
  }

  function Repeat(c: char, k: nat): (r: string)
    ensures |r| == k && forall i :: 0 <= i < k ==> r[i] == c
  {
    if k == 0 then "" else [c] + Repeat(c, k - 1)
  }

  function Padded(s: string): (r: string)
    ensures |s| <= |r| <= |s| + 3 && |r| % 4 == 0
    ensures r[..|s|] == s && forall i :: |s| <= i < |r| ==> r[i] == '='
  {
    s + Repeat('=', PadCount(|s|))
  }

  /** `.replace(/x/g, y)` for one character. */
  function ReplaceAll(s: string, x: char, y: char): (r: string)
    ensures |r| == |s|
    ensures forall i :: 0 <= i < |s| ==> r[i] == (if s[i] == x then y else s[i])
  {
    if |s| == 0 then "" else [if s[0] == x then y else s[0]] + ReplaceAll(s[1..], x, y)
  }

  /** Section 5 of RFC 4648 to section 4: '-' is '+', '_' is '/'. */
  function ToStandard(c: char): char {
    if c == '-' then '+' else if c == '_' then '/' else c
  }

  function Normalized(s: string): string {
    ReplaceAll(ReplaceAll(Padded(s), '-', '+'), '_', '/')
  }

  /** The normalised text is the padded key with each character mapped to the
      standard alphabet, and no URL-safe character is left. */
  lemma NormalizedFacts(s: string)
    ensures var r := Normalized(s);
      && |r| == |s| + PadCount(|s|) && |r| % 4 == 0
      && (forall i :: 0 <= i < |s| ==> r[i] == ToStandard(s[i]))
      && (forall i :: |s| <= i < |r| ==> r[i] == '=')
      && '-' !in r && '_' !in r
  {
    var p := Padded(s);
    assert forall i :: 0 <= i < |s| ==> p[i] == s[i] by {
      forall i | 0 <= i < |s| ensures p[i] == s[i] { assert p[..|s|][i] == p[i]; }
    }
  }

  /** A key that is already a whole number of quanta and uses only standard
      characters passes through unchanged. */
  lemma {:induction false} NormalizedStandard(s: string)
    requires |s| % 4 == 0 && '-' !in s && '_' !in s
    ensures Normalized(s) == s
  {
    NormalizedFacts(s);
    var r := Normalized(s);
    assert |r| == |s|;
    forall i | 0 <= i < |s|
      ensures r[i] == s[i]
    {
      assert s[i] != '-' && s[i] != '_';
    }
  }

  /** `new Uint8Array(raw.length)` filled with `raw.charCodeAt(i)`; a typed-array
      store keeps the low 8 bits. */
  method UrlBase64ToBytes(s: string, atob: string -> Option<string>) returns (out: Option<array<byte>>)
    ensures atob(Normalized(s)).None? ==> out.None?
    ensures atob(Normalized(s)).Some? ==>
      out.Some? && fresh(out.value)
      && var raw := atob(Normalized(s)).value;
        out.value.Length == |raw|
        && forall i :: 0 <= i < |raw| ==> out.value[i] == ((raw[i] as int) % 256) as byte
  {
    var decoded := atob(Normalized(s));
    if decoded.None? {
      return None;
    }
    var raw := decoded.value;
    var a := new byte[|raw|];
    var i := 0;
    while i < |raw|
      invariant 0 <= i <= |raw|
      invariant forall j :: 0 <= j < i ==> a[j] == ((raw[j] as int) % 256) as byte
    {
      a[i] := ((raw[i] as int) % 256) as byte;
      i := i + 1;
    }
    out := Some(a);
  }
}
