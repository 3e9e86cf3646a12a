/** The tag parser of src/lib/tags.ts: the bracket tokens `[soft]`, `[loud]`,
    `[loop]` and `[mirror]`, matched without regard to ASCII case, are
    collected (lower-cased, each once, in first-occurrence order) and deleted
    from the text, which is then trimmed at both ends. */
module Tags {
  import opened Common
  import opened Text

  /** The four words of the tag pattern; a tag is reported as its lower-case
      name. */
  datatype Tag = Soft | Loud | Loop | Mirror

  function Name(t: Tag): (n: string)
    ensures forall k :: 0 <= k < |n| ==> LowerChar(n[k]) == n[k] && n[k] != '[' && n[k] != ']'
  {
    match t
    case Soft => "soft"
    case Loud => "loud"
    case Loop => "loop"
    case Mirror => "mirror"
  }

  /** The alternatives of the pattern, in the order it tries them. */
  const Alternatives: seq<Tag> := [Soft, Loud, Loop, Mirror]

  /** The letters of w stand at position i of s, each compared after ASCII
      lower-casing (the only case folding a non-Unicode `/i` pattern applies to
      these letters). */
  predicate WordAt(s: string, i: int, w: string)
    decreases |w|
  {
    w == [] || (0 <= i < |s| && LowerChar(s[i]) == w[0] && WordAt(s, i + 1, w[1..]))
  }

  /** `[name]` of tag t starts at position i of s. */
  predicate BracketAt(s: string, i: int, t: Tag)
  {
    && 0 <= i && i + |Name(t)| + 2 <= |s|
    && s[i] == '[' && WordAt(s, i + 1, Name(t)) && s[i + 1 + |Name(t)|] == ']'
  }

  /** The tag the pattern matches at position i, trying the alternatives in
      order; None when it does not match there. */
  function TokenAt(s: string, i: int): (r: Option<Tag>)
    ensures r.Some? ==> BracketAt(s, i, r.value)
  {
    if !(0 <= i < |s|) || s[i] != '[' then None
    else if BracketAt(s, i, Soft) then Some(Soft)
    else if BracketAt(s, i, Loud) then Some(Loud)
    else if BracketAt(s, i, Loop) then Some(Loop)
    else if BracketAt(s, i, Mirror) then Some(Mirror)
    else None
  }

  /** `text.matchAll(TAG_PATTERN)` from position i on, each match lower-cased:
      the scan resumes after the end of each match. */
  function MatchesFrom(s: string, i: nat): seq<Tag>
    decreases |s| - i
  {
    if i >= |s| then []
    else match TokenAt(s, i)
      case Some(t) => [t] + MatchesFrom(s, i + |Name(t)| + 2)
      case None => MatchesFrom(s, i + 1)
  }

  function Matches(s: string): seq<Tag>
  {
    MatchesFrom(s, 0)
  }

  /** `text.replace(TAG_PATTERN, '')` from position i on. */
  function StrippedFrom(s: string, i: nat): string
    decreases |s| - i
  {
    if i >= |s| then []
    else match TokenAt(s, i)
      case Some(t) => StrippedFrom(s, i + |Name(t)| + 2)
      case None => [s[i]] + StrippedFrom(s, i + 1)
  }

  function Stripped(s: string): string
  {
    StrippedFrom(s, 0)
  }

  /** The tags the loop of `parseTags` pushes, given the matches so far: a match
      already present is skipped. */
  function Dedup(ms: seq<Tag>): seq<Tag>
  {
    if ms == [] then []
    else
      var d := Dedup(ms[..|ms| - 1]);
      if ms[|ms| - 1] in d then d else d + [ms[|ms| - 1]]
  }

  /** `parseTags(text).tags` */
  function TagsOf(text: string): seq<Tag>
  {
    Dedup(Matches(text))
  }

  /** `stripTags(text)`, the `text` of `parseTags(text)` */
  function StripTags(text: string): string
  {
    Trim(Stripped(text))
  }

  /** `getTags(text)` */
  function GetTags(text: string): seq<Tag>
  {
    TagsOf(text)
  }

  /** `hasTag(text, tag)`: the lower-cased argument is among the tag names. */
  predicate HasTag(text: string, tag: string)
  {
    exists t | t in TagsOf(text) :: Name(t) == Lower(tag)
  }

  /** `parseTags(text)`: the matches are walked in order and each tag not yet
      collected is pushed; the text is the input with every token deleted, then
      trimmed. */
  method ParseTags(text: string) returns (clean: string, tags: seq<Tag>)
    ensures tags == TagsOf(text)
    ensures clean == StripTags(text)
    ensures Distinct(tags)
    ensures forall t :: t in tags <==> t in Matches(text)
  {
    var ms := Matches(text);
    tags := [];
    var i := 0;
    while i < |ms|
      invariant 0 <= i <= |ms|
      invariant tags == Dedup(ms[..i])
    {
      TakeSnoc(ms, i);
      var tag := ms[i];
      if tag !in tags {
        tags := tags + [tag];
      }
      i := i + 1;
    }
    assert ms[..i] == ms;
    DedupMembers(ms);
    DedupDistinct(ms);
    clean := Trim(Stripped(text));
  }

  /** The collected tags are exactly the matched ones. */
  lemma {:induction false} DedupMembers(ms: seq<Tag>)
    ensures forall t :: t in Dedup(ms) <==> t in ms
  {
    if ms != [] {
      var front := ms[..|ms| - 1];
      DedupMembers(front);
      assert ms == front + [ms[|ms| - 1]];
    }
  }

  /** No tag is collected twice. */
  lemma {:induction false} DedupDistinct(ms: seq<Tag>)
    ensures Distinct(Dedup(ms))
  {
    if ms != [] {
      DedupDistinct(ms[..|ms| - 1]);
    }
  }

  lemma {:induction false} IndexOfSnoc(s: seq<Tag>, x: Tag, y: Tag)
    requires y in s
    ensures IndexOf(s + [x], y) == IndexOf(s, y)
  {
    if s[0] != y {
      assert (s + [x])[1..] == s[1..] + [x];
      IndexOfSnoc(s[1..], x, y);
    }
  }

  /** The tags come in the order of their first occurrence among the matches. */
  lemma {:induction false} DedupFirstOrder(ms: seq<Tag>)
    ensures forall t :: t in Dedup(ms) ==> t in ms
    ensures forall i, j :: 0 <= i < j < |Dedup(ms)| ==>
              Dedup(ms)[i] in ms && Dedup(ms)[j] in ms &&
              IndexOf(ms, Dedup(ms)[i]) < IndexOf(ms, Dedup(ms)[j])
  {
    DedupMembers(ms);
    if ms != [] {
      var front := ms[..|ms| - 1];
      var x := ms[|ms| - 1];
      var d := Dedup(front);
      var dd := Dedup(ms);
      assert ms == front + [x];
      DedupFirstOrder(front);
      DedupMembers(front);
      assert dd == if x in d then d else d + [x];
      forall i, j | 0 <= i < j < |dd|
        ensures dd[i] in ms && dd[j] in ms && IndexOf(ms, dd[i]) < IndexOf(ms, dd[j])
      {
        assert dd[i] == d[i];
        IndexOfSnoc(front, x, d[i]);
        if j < |d| {
          assert dd[j] == d[j];
          IndexOfSnoc(front, x, d[j]);
        } else {
          assert dd[j] == x && x !in front;
          assert IndexOf(ms, x) == |front| by {
            assert ms[|front|] == x && x !in ms[..|front|];
          }
        }
      }
    }
  }

  /** `hasTag(text, tag)` holds exactly when some match has the lower-cased
      argument as its name; any other word, however bracketed, is no tag. */
  lemma HasTagSpec(text: string, tag: string)
    ensures HasTag(text, tag) <==> exists t | t in Matches(text) :: Name(t) == Lower(tag)
    ensures HasTag(text, tag) ==> Lower(tag) in {"soft", "loud", "loop", "mirror"}
  {
    DedupMembers(Matches(text));
  }

  /** The names differ, so they identify the tags the pattern reports. */
  lemma NameInjective(t: Tag, u: Tag)
    ensures Name(t) == Name(u) <==> t == u
  {
    if t != u {
      assert Name(t)[0] != Name(u)[0] || Name(t)[2] != Name(u)[2] || Name(t)[3] != Name(u)[3];
    }
  }

  /** WordAt compares the letters one by one. */
  lemma {:induction false} WordAtSpec(s: string, i: int, w: string)
    requires 0 <= i <= |s|
    ensures WordAt(s, i, w) <==> i + |w| <= |s| && forall k :: 0 <= k < |w| ==> LowerChar(s[i + k]) == w[k]
    decreases |w|
  {
    if w != [] && i < |s| {
      WordAtSpec(s, i + 1, w[1..]);
      if i + |w| <= |s| && (forall k :: 0 <= k < |w| ==> LowerChar(s[i + k]) == w[k]) {
        assert forall k :: 0 <= k < |w[1..]| ==> LowerChar(s[i + 1 + k]) == w[1..][k] by {
          forall k | 0 <= k < |w[1..]| ensures LowerChar(s[i + 1 + k]) == w[1..][k] {
            assert w[1..][k] == w[k + 1];
          }
        }
      }
      if WordAt(s, i, w) {
        forall k | 0 <= k < |w| ensures LowerChar(s[i + k]) == w[k] {
          if k > 0 { assert w[1..][k - 1] == w[k]; }
        }
      }
    }
  }

  /** At most one alternative matches at any position: the four-letter words
      differ, and `[mirror]` has a letter where they have `]`. */
  lemma BracketUnique(s: string, i: int, t: Tag, u: Tag)
    requires BracketAt(s, i, t) && BracketAt(s, i, u)
    ensures t == u
  {
    WordAtSpec(s, i + 1, Name(t));
    WordAtSpec(s, i + 1, Name(u));
    if |Name(t)| == |Name(u)| {
      assert Name(t) == Name(u) by {
        forall k | 0 <= k < |Name(t)| ensures Name(t)[k] == Name(u)[k] {
          assert LowerChar(s[i + 1 + k]) == Name(t)[k];
        }
      }
      NameInjective(t, u);
    }
  }

  /** So trying the alternatives in order picks the only one that matches, and
      None means that none does. */
  lemma TokenAtUnique(s: string, i: int, t: Tag)
    ensures BracketAt(s, i, t) <==> TokenAt(s, i) == Some(t)
  {
    if BracketAt(s, i, t) {
      BracketUnique(s, i, t, TokenAt(s, i).value);
    }
  }

  /** No token starts at i when s[i] is not `[`. */
  lemma NoTokenAt(s: string, i: int)
    requires 0 <= i < |s| && s[i] != '['
    ensures TokenAt(s, i) == None
  {
  }

  /** A stretch without `[` is copied through unchanged... */
  lemma {:induction false} PlainRun(s: string, i: nat, j: nat)
    requires i <= j <= |s|
    requires forall k :: i <= k < j ==> s[k] != '['
    ensures StrippedFrom(s, i) == s[i..j] + StrippedFrom(s, j)
    decreases j - i
  {
    if i < j {
      NoTokenAt(s, i);
      PlainRun(s, i + 1, j);
      assert s[i..j] == [s[i]] + s[i + 1..j];
      ConcatAssoc([s[i]], s[i + 1..j], StrippedFrom(s, j));
    }
  }

  /** ...and yields no match. */
  lemma {:induction false} PlainRunMatches(s: string, i: nat, j: nat)
    requires i <= j <= |s|
    requires forall k :: i <= k < j ==> s[k] != '['
    ensures MatchesFrom(s, i) == MatchesFrom(s, j)
    decreases j - i
  {
    if i < j {
      NoTokenAt(s, i);
      PlainRunMatches(s, i + 1, j);
    }
  }

  /** Text without `[` has no tags and is only trimmed. */
  lemma NoBracketText(s: string)
    requires forall k :: 0 <= k < |s| ==> s[k] != '['
    ensures TagsOf(s) == []
    ensures StripTags(s) == Trim(s)
  {
    PlainRun(s, 0, |s|);
    PlainRunMatches(s, 0, |s|);
    assert s[0..|s|] == s;
    assert StrippedFrom(s, |s|) == [] && MatchesFrom(s, |s|) == [];
    assert Matches(s) == [];
    assert Dedup([]) == [];
    assert Stripped(s) == s[0..|s|] + [] == s;
  }

  /** A word copied verbatim in lower case is found where it stands. */
  lemma {:induction false} WordAtCopy(s: string, i: nat, w: string)
    requires i + |w| <= |s| && s[i..i + |w|] == w
    requires forall k :: 0 <= k < |w| ==> LowerChar(w[k]) == w[k]
    ensures WordAt(s, i, w)
    decreases |w|
  {
    if w != [] {
      assert s[i] == w[0];
      assert s[i + 1..i + 1 + |w[1..]|] == w[1..];
      WordAtCopy(s, i + 1, w[1..]);
    }
  }

  /** One token between two stretches without `[`: the token is matched and
      deleted and the stretches are joined as they were, white space included.
      The first test of tags.ts, `The cursor twitches [loud] when you stop
      watching.`, is of this form. */
  lemma StripOneToken(s: string, j: nat, t: Tag)
    requires j + |Name(t)| + 2 <= |s|
    requires s[j] == '[' && s[j + 1..j + 1 + |Name(t)|] == Name(t) && s[j + 1 + |Name(t)|] == ']'
    requires forall k :: 0 <= k < j ==> s[k] != '['
    requires forall k :: j + |Name(t)| + 2 <= k < |s| ==> s[k] != '['
    ensures Stripped(s) == s[..j] + s[j + |Name(t)| + 2..]
    ensures TagsOf(s) == [t]
  {
    var e := j + |Name(t)| + 2;
    WordAtCopy(s, j + 1, Name(t));
    TokenAtUnique(s, j, t);
    OneTokenText(s, j, e, t);
    OneTokenTags(s, j, e, t);
  }

  lemma OneTokenText(s: string, j: nat, e: nat, t: Tag)
    requires j < e == j + |Name(t)| + 2 <= |s| && TokenAt(s, j) == Some(t)
    requires forall k :: 0 <= k < j ==> s[k] != '['
    requires forall k :: e <= k < |s| ==> s[k] != '['
    ensures Stripped(s) == s[..j] + s[e..]
  {
    PlainRun(s, 0, j);
    PlainRun(s, e, |s|);
    assert StrippedFrom(s, |s|) == [];
    assert StrippedFrom(s, j) == StrippedFrom(s, e);
    assert s[0..j] == s[..j] && s[e..|s|] == s[e..];
  }

  lemma OneTokenTags(s: string, j: nat, e: nat, t: Tag)
    requires j < e == j + |Name(t)| + 2 <= |s| && TokenAt(s, j) == Some(t)
    requires forall k :: 0 <= k < j ==> s[k] != '['
    requires forall k :: e <= k < |s| ==> s[k] != '['
    ensures TagsOf(s) == [t]
  {
    PlainRunMatches(s, 0, j);
    PlainRunMatches(s, e, |s|);
    assert MatchesFrom(s, |s|) == [];
    assert MatchesFrom(s, j) == [t] + MatchesFrom(s, e);
    assert Dedup([t]) == [t] by {
      assert [t][..0] == [];
    }
  }

  /** The code as written: when the token stands between two spaces inside the
      text, the cleaned text keeps both, so it has two white-space characters
      in a row (the tests of tags.ts expect one). */
  lemma StripLeavesDoubleSpace(s: string, j: nat, t: Tag)
    requires 1 < j && j + |Name(t)| + 3 < |s|
    requires s[j] == '[' && s[j + 1..j + 1 + |Name(t)|] == Name(t) && s[j + 1 + |Name(t)|] == ']'
    requires forall k :: 0 <= k < j ==> s[k] != '['
    requires forall k :: j + |Name(t)| + 2 <= k < |s| ==> s[k] != '['
    requires s[j - 1] == ' ' && s[j + |Name(t)| + 2] == ' '
    requires !IsJsSpace(s[0]) && !IsJsSpace(s[|s| - 1])
    ensures StripTags(s) == s[..j] + s[j + |Name(t)| + 2..]
    ensures !SingleSpaced(StripTags(s))
  {
    StripOneToken(s, j, t);
    var r := s[..j] + s[j + |Name(t)| + 2..];
    assert r[0] == s[0] && r[|r| - 1] == s[|s| - 1];
    TrimUntouched(r);
    assert r[j - 1] == ' ' && r[j] == ' ';
  }

  /** Tags are matched without regard to ASCII case; text made of one tag alone
      cleans to the empty string. */
  lemma UpperCaseTag()
    ensures TagsOf("[LOUD]") == [Loud]
    ensures StripTags("[LOUD]") == ""
    ensures HasTag("[LOUD]", "Loud")
  {
    var s := "[LOUD]";
    assert WordAt(s, 1, "loud");
    assert TokenAt(s, 0) == Some(Loud);
    assert Lower("Loud") == "loud";
  }

  /** No two white-space characters side by side. */
  predicate SingleSpaced(s: string)
  {
    forall i :: 0 <= i < |s| - 1 ==> !(IsJsSpace(s[i]) && IsJsSpace(s[i + 1]))
  }

  /** Every run of white space replaced by one space. */
  function Collapse(s: string): string
    decreases |s|
  {
    if s == [] then []
    else if IsJsSpace(s[0]) then [' '] + Collapse(TrimStart(s[1..]))
    else [s[0]] + Collapse(s[1..])
  }

  /** Collapsing leaves no two white-space characters side by side, and starts
      with white space exactly when the input does. */
  lemma {:induction false} CollapseSpec(s: string)
    ensures Collapse(s) == [] <==> s == []
    ensures Collapse(s) != [] ==> (IsJsSpace(Collapse(s)[0]) <==> IsJsSpace(s[0]))
    ensures SingleSpaced(Collapse(s))
    decreases |s|
  {
    if s != [] {
      if IsJsSpace(s[0]) {
        var rest := TrimStart(s[1..]);
        CollapseSpec(rest);
        assert Collapse(rest) != [] ==> !IsJsSpace(Collapse(rest)[0]);
      } else {
        CollapseSpec(s[1..]);
      }
    }
  }

  /** Text already spaced by single blanks is left as it is. */
  lemma {:induction false} CollapseKeepsSingleBlanks(s: string)
    requires SingleSpaced(s)
    requires forall i :: 0 <= i < |s| && IsJsSpace(s[i]) ==> s[i] == ' '
    ensures Collapse(s) == s
    decreases |s|
  {
    if s != [] {
      CollapseKeepsSingleBlanks(s[1..]);
      if IsJsSpace(s[0]) && |s| > 1 {
        assert !IsJsSpace(s[1..][0]);
      }
    }
  }

  /** Trimming a text without two white-space characters in a row keeps it so. */
  lemma TrimKeepsSingleSpacing(s: string)
    requires SingleSpaced(s)
    ensures SingleSpaced(Trim(s))
  {
    var lo, hi := TrimCut(s);
    var r := Trim(s);
    forall i | 0 <= i < |r| - 1
      ensures !(IsJsSpace(r[i]) && IsJsSpace(r[i + 1]))
    {
      assert r[i] == s[lo + i] && r[i + 1] == s[lo + i + 1];
    }
  }

  /** The cleaned text the tests of tags.ts expect: the tokens deleted, each
      run of white space left behind closed up to one space, then trimmed. */
  function StripTagsIntended(text: string): (r: string)
    ensures SingleSpaced(r)
    ensures r == [] || (!IsJsSpace(r[0]) && !IsJsSpace(r[|r| - 1]))
  {
    var c := Collapse(Stripped(text));
    CollapseSpec(Stripped(text));
    TrimEnds(c);
    TrimKeepsSingleSpacing(c);
    Trim(c)
  }

  /** Text without tokens, spaced by single blanks, is only trimmed by the
      corrected cleaning, as by the code as written: the tests of tags.ts that
      pass such text expect it back unchanged. */
  lemma IntendedKeepsPlainText(text: string)
    requires forall k :: 0 <= k < |text| ==> text[k] != '['
    requires SingleSpaced(text)
    requires forall k :: 0 <= k < |text| && IsJsSpace(text[k]) ==> text[k] == ' '
    ensures StripTagsIntended(text) == Trim(text) == StripTags(text)
  {
    NoBracketText(text);
    assert Stripped(text) == text by {
      PlainRun(text, 0, |text|);
      assert text[0..|text|] == text;
      assert StrippedFrom(text, |text|) == [];
    }
    CollapseKeepsSingleBlanks(text);
    assert StripTagsIntended(text) == Trim(Collapse(text));
  }
}
