/** The string operations the migration script uses. */
module Text {
  import opened Common

  /** `s.replace(old, new)`: leftmost occurrences, never rescanned. */
  function Replace(s: string, old_: string, new_: string): string
    requires old_ != ""
    decreases |s|
  {
    if s == "" then ""
    else if old_ <= s then new_ + Replace(s[|old_|..], old_, new_)
    else [s[0]] + Replace(s[1..], old_, new_)
  }

  function StripLeft(s: string): string {
    if s != "" && IsSpace(s[0]) then StripLeft(s[1..]) else s
  }

  function StripRight(s: string): string {
    if s != "" && IsSpace(s[|s| - 1]) then StripRight(s[..|s| - 1]) else s
  }

  function Strip(s: string): string {
    StripRight(StripLeft(s))
  }

  /** `s.split(sep)` */
  function Split(s: string, sep: char): (parts: seq<string>)
    ensures parts != []
    ensures forall p :: p in parts ==> sep !in p
  {
    if s == "" then [""]
    else
      var rest := Split(s[1..], sep);
      if s[0] == sep then [""] + rest else [[s[0]] + rest[0]] + rest[1..]
  }

  /** The first character of a non-empty replacement result is the first character
      of the input or of the replacement. */
  lemma ReplaceFirst(s: string, old_: string, new_: string)
    requires old_ != "" && new_ != "" && s != ""
    ensures Replace(s, old_, new_) != ""
    ensures Replace(s, old_, new_)[0] == s[0] || Replace(s, old_, new_)[0] == new_[0]
  {
  }

  /** A first character that does not start the pattern is copied. */
  lemma ReplaceSkip(c: char, s: string, old_: string, new_: string)
    requires |old_| >= 2 && (c != old_[0] || s == "" || s[0] != old_[1])
    ensures Replace([c] + s, old_, new_) == [c] + Replace(s, old_, new_)
  {
    var all := [c] + s;
    assert all[0] == c && all[1..] == s;
  }

  lemma ReplaceHit(s: string, old_: string, new_: string)
    requires old_ != ""
    ensures Replace(old_ + s, old_, new_) == new_ + Replace(s, old_, new_)
  {
    assert (old_ + s)[|old_|..] == s;
  }

  /** Where the pattern does not start, the character is copied. */
  lemma ReplaceMiss(s: string, old_: string, new_: string)
    requires s != "" && old_ != "" && !(old_ <= s)
    ensures Replace(s, old_, new_) == [s[0]] + Replace(s[1..], old_, new_)
  {
  }

  ghost predicate AllSpace(s: string) {
    forall i :: 0 <= i < |s| ==> IsSpace(s[i])
  }

  lemma {:induction false} StripLeftOf(pre: string, s: string)
    requires AllSpace(pre) && (s == "" || !IsSpace(s[0]))
    ensures StripLeft(pre + s) == s
  {
    if pre == "" {
      assert pre + s == s;
    } else {
      assert (pre + s)[0] == pre[0] && (pre + s)[1..] == pre[1..] + s;
      StripLeftOf(pre[1..], s);
    }
  }

  lemma {:induction false} StripRightOf(s: string, post: string)
    requires AllSpace(post) && (s == "" || !IsSpace(s[|s| - 1]))
    ensures StripRight(s + post) == s
  {
    if post == "" {
      assert s + post == s;
    } else {
      var front := post[..|post| - 1];
      assert (s + post)[..|s + post| - 1] == s + front;
      StripRightOf(s, front);
    }
  }

  /** Stripping takes the white space off both ends and nothing else. */
  lemma StripMeans(pre: string, core: string, post: string)
    requires AllSpace(pre) && AllSpace(post)
    requires core != "" ==> !IsSpace(core[0]) && !IsSpace(core[|core| - 1])
    ensures Strip(pre + core + post) == core
  {
    if core == "" {
      assert AllSpace(pre + post);
      assert pre + core + post == (pre + post) + "";
      StripLeftOf(pre + post, "");
    } else {
      assert pre + core + post == pre + (core + post);
      StripLeftOf(pre, core + post);
      StripRightOf(core, post);
    }
  }

  /** The parts with the separator between them. */
  function Joined(parts: seq<string>, sep: char): string
    requires parts != []
  {
    if |parts| == 1 then parts[0] else parts[0] + [sep] + Joined(parts[1..], sep)
  }

  lemma JoinedGrows(c: char, parts: seq<string>, sep: char)
    requires parts != []
    ensures Joined([[c] + parts[0]] + parts[1..], sep) == [c] + Joined(parts, sep)
  {
    var longer := [[c] + parts[0]] + parts[1..];
    assert longer[0] == [c] + parts[0] && longer[1..] == parts[1..];
  }

  lemma JoinedBehindSeparator(parts: seq<string>, sep: char)
    requires parts != []
    ensures Joined([""] + parts, sep) == [sep] + Joined(parts, sep)
  {
    assert ([""] + parts)[1..] == parts;
  }

  /** Splitting loses nothing: joined again the parts are the text. */
  lemma {:induction false} SplitJoins(s: string, sep: char)
    ensures Joined(Split(s, sep), sep) == s
  {
    if s != "" {
      var rest := Split(s[1..], sep);
      SplitJoins(s[1..], sep);
      JoinedGrows(s[0], rest, sep);
      JoinedBehindSeparator(rest, sep);
      assert [s[0]] + s[1..] == s;
    }
  }
}
