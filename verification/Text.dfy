/** The string functions the Modelfile code takes from Go's standard library. */
module Text {
  /** `unicode.IsSpace`. */
  predicate IsSpace(c: char) {
    c in {'\t', '\n', '\U{0B}', '\U{0C}', '\r', ' ', '\U{85}', '\U{A0}', '\U{1680}', '\U{2028}', '\U{2029}', '\U{202F}', '\U{205F}', '\U{3000}'}
    || '\U{2000}' <= c <= '\U{200A}'
  }

  function TrimLeft(s: string): string {
    if s != "" && IsSpace(s[0]) then TrimLeft(s[1..]) else s
  }

  function TrimRight(s: string): string {
    if s != "" && IsSpace(s[|s| - 1]) then TrimRight(s[..|s| - 1]) else s
  }

  function TrimSpace(s: string): string {
    TrimRight(TrimLeft(s))
  }

  predicate Trimmed(s: string) {
    s != "" ==> !IsSpace(s[0]) && !IsSpace(s[|s| - 1])
  }

  lemma TrimLeftTail(s: string)
    ensures |TrimLeft(s)| <= |s| && TrimLeft(s) == s[|s| - |TrimLeft(s)|..] && (TrimLeft(s) != "" ==> !IsSpace(TrimLeft(s)[0]))
  {
  }

  lemma TrimRightHead(s: string)
    ensures TrimRight(s) <= s && (TrimRight(s) != "" ==> !IsSpace(TrimRight(s)[|TrimRight(s)| - 1]))
  {
  }

  /** Trimming yields a trimmed piece of its input, and changes nothing exactly when the input was trimmed. */
  lemma TrimSpaceTrims(s: string)
    ensures Trimmed(TrimSpace(s)) && (TrimSpace(s) == s <==> Trimmed(s)) && (Trimmed(s) || |TrimSpace(s)| < |s|)
    ensures forall c :: c in TrimSpace(s) ==> c in s
  {
    TrimLeftTail(s);
    TrimRightHead(TrimLeft(s));
    PieceWithin(s, TrimLeft(s), TrimSpace(s));
    if TrimSpace(s) != "" { assert TrimSpace(s)[0] == TrimLeft(s)[0]; }
  }

  lemma PieceWithin(s: string, tail: string, piece: string)
    requires |tail| <= |s| && tail == s[|s| - |tail|..] && piece <= tail
    ensures forall c :: c in piece ==> c in s
  {
    forall i | 0 <= i < |piece| ensures piece[i] in s { assert piece[i] == tail[i] == s[|s| - |tail| + i]; }
  }

  /** `strings.ToUpper`, as far as it can reach an ASCII capital; every other rune is left as it is. */
  function UpperChar(c: char): char {
    if 'a' <= c <= 'z' then c - 'a' + 'A'
    else if c == '\U{131}' then 'I'
    else if c == '\U{17F}' then 'S'
    else c
  }

  function ToUpper(s: string): (u: string)
    ensures |u| == |s|
  {
    seq(|s|, i requires 0 <= i < |s| => UpperChar(s[i]))
  }

  /** `strings.Index` of one character; the length of `s` stands for -1. */
  function Index(s: string, c: char): (k: nat)
    ensures k <= |s| && c !in s[..k] && (k < |s| ==> s[k] == c)
  {
    if s == "" || s[0] == c then 0 else 1 + Index(s[1..], c)
  }

  lemma {:induction false} IndexUnique(s: string, c: char, k: nat)
    requires k < |s| && s[k] == c && c !in s[..k]
    ensures Index(s, c) == k
  {
    if k > 0 {
      assert s[..k][0] in s[..k] && s[1..][..k - 1] == s[..k][1..];
      IndexUnique(s[1..], c, k - 1);
    }
  }

  /** Bytes of a rune in UTF-8, and of a string. */
  function Utf8Length(s: string): nat {
    if s == "" then 0
    else (if s[0] < '\U{80}' then 1 else if s[0] < '\U{800}' then 2 else if s[0] < '\U{10000}' then 3 else 4) + Utf8Length(s[1..])
  }

  /** `strings.Join`. */
  function Join(parts: seq<string>, separator: string): string {
    if parts == [] then ""
    else if |parts| == 1 then parts[0]
    else parts[0] + separator + Join(parts[1..], separator)
  }
}
