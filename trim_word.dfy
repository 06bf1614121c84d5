/**
 * `trim_word(path, word)` of the cryptography editor (LogCatCryptography.py):
 * when `path` ends with `word`, cut that suffix off and strip every trailing
 * path separator; otherwise return `path` unchanged.
 */
module PathTrim {

  /** The characters `rstrip("\\/")` removes. */
  const PathSeparators: set<char> := {'\\', '/'}

  /** Python's `s.endswith(suffix)`; every string ends with the empty string. */
  function EndsWith(s: string, suffix: string): (b: bool)
    ensures b <==> |suffix| <= |s| && s == s[..|s| - |suffix|] + suffix
    ensures suffix == [] ==> b
  {
    |suffix| <= |s| && s[|s| - |suffix|..] == suffix
  }

  /** Python's slice `s[:-n]`; for n == 0 it is `s[:0]`, the empty string. */
  function DropLast(s: string, n: nat): (r: string)
    ensures r <= s
    ensures n == 0 ==> r == []
    ensures n > 0 ==> |r| == (if n < |s| then |s| - n else 0)
  {
    if n == 0 || |s| <= n then [] else s[..|s| - n]
  }

  /** Python's `s.rstrip(chars)`: drop the longest suffix made of characters in `chars`. */
  function RStrip(s: string, chars: set<char>): (r: string)
    ensures r <= s
    ensures forall i :: |r| <= i < |s| ==> s[i] in chars
    ensures r == [] || r[|r| - 1] !in chars
  {
    if s != [] && s[|s| - 1] in chars then RStrip(s[..|s| - 1], chars) else s
  }

  /**
   * The three facts `RStrip` ensures pin its result down: any prefix that
   * leaves only characters of `chars` behind and does not itself end in one
   * is the result of `RStrip`.
   */
  lemma {:induction false} RStripUnique(s: string, chars: set<char>, t: string)
    requires t <= s
    requires forall i :: |t| <= i < |s| ==> s[i] in chars
    requires t == [] || t[|t| - 1] !in chars
    ensures t == RStrip(s, chars)
  {
    if |t| == |s| {
      assert t == s;
    } else {
      var s' := s[..|s| - 1];
      assert s[|s| - 1] in chars;
      assert t <= s';
      RStripUnique(s', chars, t);
    }
  }

  /** Stripping a second time removes nothing more. */
  lemma RStripIdempotent(s: string, chars: set<char>)
    ensures RStrip(RStrip(s, chars), chars) == RStrip(s, chars)
  {
    var r := RStrip(s, chars);
    RStripUnique(r, chars, r);
  }

  /** `trim_word(path, word)` */
  function TrimWord(path: string, word: string): (r: string)
    ensures r <= path
    ensures !EndsWith(path, word) ==> r == path
    ensures EndsWith(path, word) && word == [] ==> r == []
    ensures EndsWith(path, word) ==> |r| <= |path| - |word|
    ensures EndsWith(path, word) && word != [] ==>
              forall i :: |r| <= i < |path| - |word| ==> path[i] in PathSeparators
    ensures EndsWith(path, word) ==> r == [] || r[|r| - 1] !in PathSeparators
  {
    if EndsWith(path, word) then RStrip(DropLast(path, |word|), PathSeparators) else path
  }

  /**
   * When `path` ends with a non-empty `word`, the result is exactly `path`
   * without that suffix and without the separators before it.
   */
  lemma TrimWordSuffix(stem: string, word: string)
    requires word != []
    ensures TrimWord(stem + word, word) == RStrip(stem, PathSeparators)
  {
    var path := stem + word;
    assert path[|path| - |word|..] == word;
    assert path[..|path| - |word|] == stem;
  }

  /** With an empty `word`, `path[:-0]` is empty, so every path trims to "". */
  lemma TrimEmptyWord(path: string)
    ensures TrimWord(path, "") == ""
  {
  }
}
