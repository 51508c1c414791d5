/** The string functions the discovery uses on folder and file names:
    `toLower`, and the `suffix` and `baseName` of a file name. Lower-casing
    is modelled on ASCII letters only. */
module Text {

  import opened Wrappers
  import Seqs

  function LowerChar(c: char): char
  {
    if 'A' <= c <= 'Z' then (c as int + 32) as char else c
  }

  function UpperChar(c: char): char
  {
    if 'a' <= c <= 'z' then (c as int - 32) as char else c
  }

  predicate IsLowerWord(w: string)
  {
    forall i | 0 <= i < |w| :: 'a' <= w[i] <= 'z'
  }

  /** Lower-cases every ASCII letter and leaves every other character alone. */
  function ToLower(s: string): (r: string)
    ensures |r| == |s|
    ensures forall i | 0 <= i < |s| :: r[i] == LowerChar(s[i])
  {
    seq(|s|, i requires 0 <= i < |s| => LowerChar(s[i]))
  }

  /** A name lower-cases to a lower-case word exactly when it spells that word
      with each letter in either case: "Garmin", "GARMIN" and "garmin" all
      match "garmin"; "Garmin2" and "garmi" do not. */
  lemma LowerEqualsIff(s: string, w: string)
    requires IsLowerWord(w)
    ensures ToLower(s) == w <==>
              |s| == |w| && forall i | 0 <= i < |s| :: s[i] == w[i] || s[i] == UpperChar(w[i])
  {
    if ToLower(s) == w {
      forall i | 0 <= i < |s|
        ensures s[i] == w[i] || s[i] == UpperChar(w[i])
      {
        assert LowerChar(s[i]) == w[i];
      }
    }
    if |s| == |w| && forall i | 0 <= i < |s| :: s[i] == w[i] || s[i] == UpperChar(w[i]) {
      forall i | 0 <= i < |s|
        ensures ToLower(s)[i] == w[i]
      {
        assert LowerChar(s[i]) == w[i];
      }
    }
  }

  /** `baseName`: the file name up to, not including, its first '.'. */
  function BaseName(fileName: string): string
  {
    match Seqs.IndexOf(fileName, '.')
    case None => fileName
    case Some(k) => fileName[..k]
  }

  /** `suffix`: the file name after, not including, its last '.'; empty when
      the name has no '.'. */
  function Suffix(fileName: string): string
  {
    match Seqs.LastIndexOf(fileName, '.')
    case None => ""
    case Some(k) => fileName[k + 1..]
  }

  /** The base name is the dot-free prefix of the file name that ends at its
      first '.', or the whole name when there is none. */
  lemma BaseNameSpec(fileName: string)
    ensures BaseName(fileName) <= fileName
    ensures '.' !in BaseName(fileName)
    ensures '.' in fileName ==>
              |BaseName(fileName)| < |fileName| && fileName[|BaseName(fileName)|] == '.'
    ensures '.' !in fileName ==> BaseName(fileName) == fileName
  {
  }

  /** The suffix is the dot-free tail of the file name that follows its last
      '.', or empty when there is none. */
  lemma SuffixSpec(fileName: string)
    ensures '.' !in Suffix(fileName)
    ensures '.' in fileName ==>
              var r := Suffix(fileName);
              |r| < |fileName| && fileName == fileName[..|fileName| - |r| - 1] + "." + r
    ensures '.' !in fileName ==> Suffix(fileName) == ""
  {
    match Seqs.LastIndexOf(fileName, '.')
    case None =>
    case Some(k) =>
      assert fileName == fileName[..k] + "." + fileName[k + 1..];
  }

  /** A name "stem.ext" whose extension holds no '.' has suffix "ext",
      whatever dots the stem holds. */
  lemma SuffixOfDotted(stem: string, ext: string)
    requires '.' !in ext
    ensures Suffix(stem + "." + ext) == ext
  {
    var name := stem + "." + ext;
    assert name[|stem|] == '.';
    SuffixSpec(name);
    var r := Suffix(name);
    assert name == name[..|name| - |r| - 1] + "." + r;
    assert r == name[|name| - |r|..];
  }

  /** A name "base.rest" whose base holds no '.' has base name "base",
      whatever dots the rest holds. */
  lemma BaseNameOfDotted(base: string, rest: string)
    requires '.' !in base
    ensures BaseName(base + "." + rest) == base
  {
    var name := base + "." + rest;
    BaseNameSpec(name);
    var r := BaseName(name);
    assert name[|base|] == '.';
    assert base <= name;
  }
}
