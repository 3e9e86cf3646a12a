/** `applyEntropy` of src/lib/storyEngine.ts: the three corruption tiers a
    line's text goes through as entropy rises (block characters, an adjacent
    word swap, zero-width marks), with every `Math.random()` value taken from
    an injected stream in the order the code draws them. */
module Corruption {
  import opened Common

  /** The `Math.random()` values, the n-th draw being `rng(n)`. */
  type Stream = nat -> Draw

  /** A text and the position of the next unused draw. */
  datatype Out = Out(text: string, next: nat)

  /** The replacement characters of the first tier: full, dark, medium and
      light shade, lower and upper half, left and right half block. */
  const Blocks: seq<char> := ['\U{2588}', '\U{2593}', '\U{2592}', '\U{2591}', '\U{2584}', '\U{2580}', '\U{258C}', '\U{2590}']

  /** The marks of the third tier: zero-width space, non-joiner, joiner, and
      the byte-order mark. */
  const Marks: seq<char> := ['\U{200B}', '\U{200C}', '\U{200D}', '\U{FEFF}']

  predicate IsMark(c: char)
  {
    c == '\U{200B}' || c == '\U{200C}' || c == '\U{200D}' || c == '\U{FEFF}'
  }

  /** Tier 1, `chars.map(...)`: each character draws once, and a non-space one
      whose draw is below the rate draws again for the block that replaces it. */
  function Blot(cs: string, rate: real, rng: Stream, pos: nat): (o: Out)
    ensures |o.text| == |cs| && o.next >= pos
    decreases |cs|
  {
    if cs == [] then Out([], pos)
    else if rng(pos) < rate && cs[0] != ' ' then
      var rest := Blot(cs[1..], rate, rng, pos + 2);
      Out([Blocks[Pick(rng(pos + 1), |Blocks|)]] + rest.text, rest.next)
    else
      var rest := Blot(cs[1..], rate, rng, pos + 1);
      Out([cs[0]] + rest.text, rest.next)
  }

  /** `s.split(' ')`: the pieces between spaces, empty ones included. */
  function Split(s: string): (ws: seq<string>)
    ensures |ws| >= 1
    ensures forall i :: 0 <= i < |ws| ==> ' ' !in ws[i]
  {
    if s == [] then [[]]
    else
      var ws := Split(s[1..]);
      if s[0] == ' ' then [[]] + ws
      else
        assert [s[0]] + ws[0] == [s[0]] + ws[0];
        [[s[0]] + ws[0]] + ws[1..]
  }

  /** `words.join(' ')` */
  function Join(ws: seq<string>): string
    requires |ws| >= 1
    decreases |ws|
  {
    if |ws| == 1 then ws[0] else ws[0] + " " + Join(ws[1..])
  }

  /** `[words[i], words[i + 1]] = [words[i + 1], words[i]]` */
  function SwapNext(ws: seq<string>, i: nat): (r: seq<string>)
    requires i + 1 < |ws|
    ensures |r| == |ws|
  {
    ws[i := ws[i + 1]][i + 1 := ws[i]]
  }

  /** Tier 2: from entropy 40 on one draw decides (below 0.05) whether to swap;
      with at least two words a second draw picks which pair. */
  function Swap(s: string, entropy: real, rng: Stream, pos: nat): (o: Out)
    ensures o.next >= pos
  {
    if entropy >= 40.0 && rng(pos) < 0.05 then
      var ws := Split(s);
      if |ws| > 1 then
        var i := Pick(rng(pos + 1), |ws| - 1);
        Out(Join(SwapNext(ws, i)), pos + 2)
      else Out(s, pos + 1)
    else if entropy >= 40.0 then Out(s, pos + 1)
    else Out(s, pos)
  }

  /** Tier 3, `chars.map(...)`: each character draws once, and a non-space one
      whose draw is below 0.1 draws again for the mark appended after it. */
  function Mark(cs: string, rng: Stream, pos: nat): (o: Out)
    ensures |o.text| >= |cs| && o.next >= pos
    decreases |cs|
  {
    if cs == [] then Out([], pos)
    else if rng(pos) < 0.1 && cs[0] != ' ' then
      var rest := Mark(cs[1..], rng, pos + 2);
      Out([cs[0], Marks[Pick(rng(pos + 1), |Marks|)]] + rest.text, rest.next)
    else
      var rest := Mark(cs[1..], rng, pos + 1);
      Out([cs[0]] + rest.text, rest.next)
  }

  /** `applyEntropy(text, entropy)` */
  function ApplyEntropy(text: string, entropy: real, rng: Stream): string
  {
    if entropy < 10.0 then text
    else
      var a := Blot(text, Min(0.3, entropy / 100.0), rng, 0);
      var b := Swap(a.text, entropy, rng, a.next);
      if entropy >= 70.0 then Mark(b.text, rng, b.next).text else b.text
  }

  function Spaces(s: string): nat
  {
    multiset(s)[' ']
  }

  /** What remains of a text without the zero-width marks. */
  function Unmarked(s: string): string
  {
    if s == [] then [] else (if IsMark(s[0]) then [] else [s[0]]) + Unmarked(s[1..])
  }

  /** Tier 1 keeps every space and only puts blocks where other characters
      were. */
  lemma {:induction false} BlotSpec(cs: string, rate: real, rng: Stream, pos: nat)
    ensures var o := Blot(cs, rate, rng, pos).text;
            && |o| == |cs|
            && forall i :: 0 <= i < |cs| ==>
                 (o[i] == ' ' <==> cs[i] == ' ') && (o[i] == cs[i] || o[i] in Blocks)
    decreases |cs|
  {
    if cs != [] {
      var d := rng(pos);
      var step := if d < rate && cs[0] != ' ' then 2 else 1;
      BlotSpec(cs[1..], rate, rng, pos + step);
      var o := Blot(cs, rate, rng, pos).text;
      var rest := Blot(cs[1..], rate, rng, pos + step).text;
      assert o[1..] == rest;
      forall i | 0 <= i < |cs| ensures (o[i] == ' ' <==> cs[i] == ' ') && (o[i] == cs[i] || o[i] in Blocks) {
        if i > 0 {
          assert o[i] == rest[i - 1] && cs[i] == cs[1..][i - 1];
        }
      }
    }
  }

  /** Splitting at spaces and joining with spaces gives the text back. */
  lemma {:induction false} JoinSplit(s: string)
    ensures Join(Split(s)) == s
  {
    if s != [] {
      JoinSplit(s[1..]);
      var ws := Split(s[1..]);
      if s[0] == ' ' {
        assert Split(s)[1..] == ws;
        assert s == [] + " " + s[1..];
      } else {
        var vs := Split(s);
        assert vs[1..] == ws[1..];
        if |ws| == 1 {
          assert s == [s[0]] + ws[0];
        } else {
          assert Join(ws) == ws[0] + " " + Join(ws[1..]);
          assert Join(vs) == ([s[0]] + ws[0]) + " " + Join(ws[1..]);
          assert s == [s[0]] + s[1..];
        }
      }
    }
  }

  /** A text with n spaces splits into n + 1 words. */
  lemma {:induction false} SplitCount(s: string)
    ensures |Split(s)| == Spaces(s) + 1
  {
    if s != [] {
      SplitCount(s[1..]);
      assert s == [s[0]] + s[1..];
    }
  }

  /** The characters of a joined text: those of the words and one space
      between each two. */
  function Bag(ws: seq<string>): multiset<char>
    requires |ws| >= 1
    decreases |ws|
  {
    if |ws| == 1 then multiset(ws[0]) else multiset(ws[0]) + multiset{' '} + Bag(ws[1..])
  }

  lemma {:induction false} JoinBag(ws: seq<string>)
    requires |ws| >= 1
    ensures multiset(Join(ws)) == Bag(ws)
    decreases |ws|
  {
    if |ws| > 1 {
      JoinBag(ws[1..]);
      assert Join(ws) == ws[0] + " " + Join(ws[1..]);
    }
  }

  /** Exchanging two neighbouring words keeps the characters of the joined
      text. */
  lemma {:induction false} SwapBag(ws: seq<string>, i: nat)
    requires i + 1 < |ws|
    ensures Bag(SwapNext(ws, i)) == Bag(ws)
    decreases i
  {
    var r := SwapNext(ws, i);
    if i > 0 {
      SwapBag(ws[1..], i - 1);
      assert r[1..] == SwapNext(ws[1..], i - 1);
    } else if |ws| == 2 {
      assert Bag(r) == multiset(ws[1]) + multiset{' '} + multiset(ws[0]);
    } else {
      assert r[1..][1..] == ws[2..];
      assert ws[1..][1..] == ws[2..];
    }
  }

  /** Tier 2 only moves characters around. */
  lemma SwapSpec(s: string, entropy: real, rng: Stream, pos: nat)
    ensures multiset(Swap(s, entropy, rng, pos).text) == multiset(s)
    ensures |Swap(s, entropy, rng, pos).text| == |s|
    ensures entropy < 40.0 ==> Swap(s, entropy, rng, pos) == Out(s, pos)
  {
    if entropy >= 40.0 && rng(pos) < 0.05 {
      var ws := Split(s);
      if |ws| > 1 {
        var i := Pick(rng(pos + 1), |ws| - 1);
        JoinSplit(s);
        JoinBag(ws);
        JoinBag(SwapNext(ws, i));
        SwapBag(ws, i);
        assert |multiset(Swap(s, entropy, rng, pos).text)| == |multiset(s)|;
      }
    }
  }

  /** Tier 3 only inserts marks: removing the marks of its output leaves what
      removing them from its input leaves. */
  lemma {:induction false} MarkUnmarked(cs: string, rng: Stream, pos: nat)
    ensures Unmarked(Mark(cs, rng, pos).text) == Unmarked(cs)
    decreases |cs|
  {
    if cs != [] {
      if rng(pos) < 0.1 && cs[0] != ' ' {
        var rest := Mark(cs[1..], rng, pos + 2).text;
        MarkUnmarked(cs[1..], rng, pos + 2);
        var m := Marks[Pick(rng(pos + 1), |Marks|)];
        MarkedHead(cs[0], m, rest);
      } else {
        MarkUnmarked(cs[1..], rng, pos + 1);
      }
    }
  }

  lemma MarkedHead(c: char, m: char, rest: string)
    requires m in Marks
    ensures Unmarked([c, m] + rest) == Unmarked([c]) + Unmarked(rest)
  {
    var o := [c, m] + rest;
    assert o[1..] == [m] + rest;
    assert ([m] + rest)[1..] == rest;
  }

  /** Removing the marks keeps the spaces. */
  lemma {:induction false} UnmarkedSpaces(s: string)
    ensures Spaces(Unmarked(s)) == Spaces(s)
  {
    if s != [] {
      UnmarkedSpaces(s[1..]);
      assert s == [s[0]] + s[1..];
    }
  }

  /** Tier 3 keeps the spaces: the marks it adds are not spaces. */
  lemma MarkSpaces(cs: string, rng: Stream, pos: nat)
    ensures Spaces(Mark(cs, rng, pos).text) == Spaces(cs)
  {
    MarkUnmarked(cs, rng, pos);
    UnmarkedSpaces(Mark(cs, rng, pos).text);
    UnmarkedSpaces(cs);
  }

  lemma BlotSpaces(cs: string, rate: real, rng: Stream, pos: nat)
    ensures Spaces(Blot(cs, rate, rng, pos).text) == Spaces(cs)
  {
    BlotSpec(cs, rate, rng, pos);
    SameSpaces(Blot(cs, rate, rng, pos).text, cs);
  }

  /** Two texts of one length with spaces in the same places have as many. */
  lemma {:induction false} SameSpaces(a: string, b: string)
    requires |a| == |b|
    requires forall i :: 0 <= i < |a| ==> (a[i] == ' ' <==> b[i] == ' ')
    ensures Spaces(a) == Spaces(b)
  {
    if a != [] {
      SameSpaces(a[1..], b[1..]);
      assert a == [a[0]] + a[1..] && b == [b[0]] + b[1..];
    }
  }

  /** Below entropy 10 the text is returned unchanged; below 70 it keeps its
      length; from 70 on it never gets shorter; and at any entropy it keeps
      its spaces. */
  lemma ApplyEntropySpec(text: string, entropy: real, rng: Stream)
    ensures entropy < 10.0 ==> ApplyEntropy(text, entropy, rng) == text
    ensures entropy < 70.0 ==> |ApplyEntropy(text, entropy, rng)| == |text|
    ensures |ApplyEntropy(text, entropy, rng)| >= |text|
    ensures Spaces(ApplyEntropy(text, entropy, rng)) == Spaces(text)
  {
    if entropy >= 10.0 {
      var rate := Min(0.3, entropy / 100.0);
      var a := Blot(text, rate, rng, 0);
      var b := Swap(a.text, entropy, rng, a.next);
      BlotSpaces(text, rate, rng, 0);
      SwapSpec(a.text, entropy, rng, a.next);
      assert Spaces(b.text) == Spaces(a.text);
      if entropy >= 70.0 {
        MarkSpaces(b.text, rng, b.next);
      }
    }
  }

  /** Between 10 and 40 only tier 1 runs: the text keeps every character at
      its place except non-space ones turned into blocks. */
  lemma ApplyEntropyBlotsOnly(text: string, entropy: real, rng: Stream)
    requires 10.0 <= entropy < 40.0
    ensures var o := ApplyEntropy(text, entropy, rng);
            |o| == |text| &&
            forall i :: 0 <= i < |text| ==> o[i] == text[i] || (text[i] != ' ' && o[i] in Blocks)
  {
    var rate := Min(0.3, entropy / 100.0);
    BlotSpec(text, rate, rng, 0);
    SwapSpec(Blot(text, rate, rng, 0).text, entropy, rng, Blot(text, rate, rng, 0).next);
  }
}
