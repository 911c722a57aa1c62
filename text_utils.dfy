/** `clearBadSymbols` (utils/textUtils.js): the filter applied to model
    output before it is sent to chat. Emoji-like characters are removed
    (ASCII digits excepted), then Han, Hiragana, Katakana and Hangul
    characters (ASCII digits excepted), then every run of white space
    becomes one space and the ends are trimmed. */
module TextUtils {
  import opened JsString

  // ---------------------------------------------------------------------
  // Character classes
  // ---------------------------------------------------------------------

  /** The union of the Unicode properties Emoji, Emoji_Presentation,
      Emoji_Modifier, Emoji_Modifier_Base and Emoji_Component, plus U+200D
      (the zero width joiner), approximated by the code point ranges those
      properties occupy. The ASCII characters '#', '*' and the digits carry
      the property Emoji, as they do in Unicode. */
  predicate IsEmojiLike(c: char) {
    || c == '#' || c == '*' || IsDecimalDigit(c)
    || c == '\U{A9}' || c == '\U{AE}' || c == '\U{200D}' || c == '\U{203C}' || c == '\U{2049}'
    || c == '\U{20E3}' || c == '\U{2122}' || c == '\U{2139}' || ('\U{2194}' <= c <= '\U{21AA}')
    || ('\U{231A}' <= c <= '\U{23FF}') || c == '\U{24C2}' || ('\U{25AA}' <= c <= '\U{25FE}')
    || ('\U{2600}' <= c <= '\U{27BF}') || ('\U{2934}' <= c <= '\U{2935}')
    || ('\U{2B05}' <= c <= '\U{2B55}') || c == '\U{3030}' || c == '\U{303D}'
    || c == '\U{3297}' || c == '\U{3299}' || c == '\U{FE0F}'
    || ('\U{1F000}' <= c <= '\U{1FAFF}') || ('\U{E0020}' <= c <= '\U{E007F}')
  }

  /** The scripts Han, Hiragana, Katakana and Hangul, approximated by the
      Unicode blocks they occupy. */
  predicate IsCJK(c: char) {
    // Han
    || ('\U{2E80}' <= c <= '\U{2FDF}') || c == '\U{3005}' || c == '\U{3007}'
    || ('\U{3021}' <= c <= '\U{3029}') || ('\U{3038}' <= c <= '\U{303B}')
    || ('\U{3400}' <= c <= '\U{4DBF}') || ('\U{4E00}' <= c <= '\U{9FFF}')
    || ('\U{F900}' <= c <= '\U{FAFF}') || ('\U{20000}' <= c <= '\U{3134F}')
    // Hiragana
    || ('\U{3041}' <= c <= '\U{309F}')
    // Katakana
    || ('\U{30A0}' <= c <= '\U{30FF}') || ('\U{31F0}' <= c <= '\U{31FF}')
    || ('\U{FF66}' <= c <= '\U{FF9F}')
    // Hangul
    || ('\U{1100}' <= c <= '\U{11FF}') || ('\U{3131}' <= c <= '\U{318F}')
    || ('\U{A960}' <= c <= '\U{A97F}') || ('\U{AC00}' <= c <= '\U{D7FF}')
  }

  /** What the first pattern removes: the negative look-ahead exempts the
      digits 0 to 9. */
  predicate DropEmoji(c: char) {
    !IsDecimalDigit(c) && IsEmojiLike(c)
  }

  /** What the second pattern removes. */
  predicate DropCJK(c: char) {
    !IsDecimalDigit(c) && IsCJK(c)
  }

  /** A character no output of the sanitiser may contain. */
  predicate Removed(c: char) {
    DropEmoji(c) || DropCJK(c)
  }

  /** A character whose trace the output loses entirely: white space, which
      only survives as a separator, and the removed classes. */
  predicate Discarded(c: char) {
    IsWs(c) || Removed(c)
  }

  // ---------------------------------------------------------------------
  // Filtering
  // ---------------------------------------------------------------------

  /** `s` without the characters `drop` selects, the others in order. */
  function Strip(s: string, drop: char -> bool): (r: string)
    ensures |r| <= |s|
    ensures forall i :: 0 <= i < |r| ==> !drop(r[i])
    decreases |s|
  {
    if s == [] then []
    else (if drop(s[0]) then [] else [s[0]]) + Strip(s[1..], drop)
  }

  /** Filtering distributes over concatenation. */
  lemma {:induction false} StripAppend(a: string, b: string, drop: char -> bool)
    ensures Strip(a + b, drop) == Strip(a, drop) + Strip(b, drop)
  {
    if a == [] {
      assert a + b == b;
    } else {
      assert (a + b)[0] == a[0] && (a + b)[1..] == a[1..] + b;
      StripAppend(a[1..], b, drop);
    }
  }

  /** Every property all characters of `s` have, the characters of the
      filtered text have too. */
  lemma {:induction false} StripKeeps(s: string, drop: char -> bool, keep: char -> bool)
    requires forall i :: 0 <= i < |s| ==> keep(s[i])
    ensures forall i :: 0 <= i < |Strip(s, drop)| ==> keep(Strip(s, drop)[i])
  {
    if s != [] {
      StripKeeps(s[1..], drop, keep);
    }
  }

  /** A text none of whose characters is selected is kept whole. */
  lemma {:induction false} StripNone(s: string, drop: char -> bool)
    requires forall i :: 0 <= i < |s| ==> !drop(s[i])
    ensures Strip(s, drop) == s
  {
    if s != [] {
      StripNone(s[1..], drop);
    }
  }

  /** A text all of whose characters are selected disappears. */
  lemma {:induction false} StripAll(s: string, drop: char -> bool)
    requires forall i :: 0 <= i < |s| ==> drop(s[i])
    ensures Strip(s, drop) == []
  {
    if s != [] {
      StripAll(s[1..], drop);
    }
  }

  /** The non-white-space characters of `s`, in order. */
  function NonWs(s: string): (r: string)
  {
    Strip(s, IsWs)
  }

  /** The characters of `s` that the sanitiser must let through, in order:
      neither white space nor of a removed class. */
  function Kept(s: string): (r: string)
  {
    Strip(s, Discarded)
  }

  /** Removing the two classes and then the white space leaves exactly the
      kept characters. */
  lemma {:induction false} StripThree(s: string)
    ensures NonWs(Strip(Strip(s, DropEmoji), DropCJK)) == Kept(s)
  {
    if s != [] {
      StripThree(s[1..]);
      var e := Strip(s, DropEmoji);
      var c := Strip(e, DropCJK);
      var e1 := Strip(s[1..], DropEmoji);
      var c1 := Strip(e1, DropCJK);
      var h1: string := if DropEmoji(s[0]) then [] else [s[0]];
      assert e == h1 + e1;
      StripAppend(h1, e1, DropCJK);
      var h2: string := Strip(h1, DropCJK);
      assert c == h2 + c1;
      StripAppend(h2, c1, IsWs);
      assert Strip(h2, IsWs) == if Discarded(s[0]) then [] else [s[0]];
    }
  }

  // ---------------------------------------------------------------------
  // White space collapsing
  // ---------------------------------------------------------------------

  /** Every white-space character is a plain space followed by a character
      that is not white space (or by the end of the text). */
  predicate Collapsed(s: string) {
    forall i :: 0 <= i < |s| && IsWs(s[i]) ==> s[i] == ' ' && (i + 1 < |s| ==> !IsWs(s[i + 1]))
  }

  /** `s.replace(/\s+/g, ' ')`: each maximal run of white space becomes one
      space; every other character is copied. */
  function Collapse(s: string): (r: string)
    ensures (r == []) == (s == [])
    ensures s != [] ==> (IsWs(r[0]) <==> IsWs(s[0]))
    ensures forall i :: 0 <= i < |r| && IsWs(r[i]) ==> r[i] == ' '
    ensures Collapsed(r)
    decreases |s|
  {
    if s == [] then []
    else if IsWs(s[0]) then [' '] + Collapse(TrimStart(s))
    else [s[0]] + Collapse(s[1..])
  }

  /** Every property that a space and all characters of `s` have, the
      characters of the collapsed text have too. */
  lemma {:induction false} CollapseKeeps(s: string, keep: char -> bool)
    requires keep(' ')
    requires forall i :: 0 <= i < |s| ==> keep(s[i])
    ensures forall i :: 0 <= i < |Collapse(s)| ==> keep(Collapse(s)[i])
    decreases |s|
  {
    if s != [] {
      if IsWs(s[0]) {
        var t := TrimStart(s);
        TrimStartSuffix(s);
        assert forall i :: 0 <= i < |t| ==> t[i] == s[|s| - |t| + i];
        CollapseKeeps(t, keep);
      } else {
        CollapseKeeps(s[1..], keep);
      }
    }
  }

  /** Collapsing keeps every non-white-space character in its place in the
      order. */
  lemma {:induction false} CollapseNonWs(s: string)
    ensures NonWs(Collapse(s)) == NonWs(s)
    decreases |s|
  {
    if s != [] {
      if IsWs(s[0]) {
        var t := TrimStart(s);
        var k := |s| - |t|;
        TrimStartSuffix(s);
        CollapseNonWs(t);
        StripAppend([' '], Collapse(t), IsWs);
        assert s == s[..k] + t;
        StripAppend(s[..k], t, IsWs);
        StripAll(s[..k], IsWs);
      } else {
        CollapseNonWs(s[1..]);
        StripAppend([s[0]], Collapse(s[1..]), IsWs);
      }
    }
  }

  /** A collapsed text is a fixed point of collapsing. */
  lemma {:induction false} CollapseFixed(s: string)
    requires Collapsed(s)
    ensures Collapse(s) == s
  {
    if s != [] {
      assert Collapsed(s[1..]);
      CollapseFixed(s[1..]);
      if IsWs(s[0]) {
        assert TrimStart(s) == s[1..] by {
          assert s[1..] == [] || !IsWs(s[1]);
        }
      }
    }
  }

  /** Regrouping a concatenation of four texts. */
  lemma Regroup4(p: string, x: string, q: string, y: string)
    ensures p + (x + q + y) == p + x + q + y
  {
  }

  /** Regrouping a concatenation of three texts, and dropping its first
      character. */
  lemma Regroup3(a: string, w: string, b: string)
    ensures a + w + b == a + (w + b)
    ensures a != [] ==> (a + w + b)[1..] == a[1..] + w + b
  {
    if a != [] {
      assert (a + w + b)[1..] == a[1..] + w + b;
    }
  }

  /** A run of white space between two texts that do not border it with
      white space becomes exactly one space: the words on either side stay
      apart. */
  lemma {:induction false} CollapseRun(a: string, w: string, b: string)
    requires w != [] && forall i :: 0 <= i < |w| ==> IsWs(w[i])
    requires a == [] || !IsWs(a[|a| - 1])
    requires b == [] || !IsWs(b[0])
    ensures Collapse(a + w + b) == Collapse(a) + [' '] + Collapse(b)
    decreases |a|
  {
    if a == [] {
      CollapseRunFront(w, b);
    } else if IsWs(a[0]) {
      TrimStartKeepsLast(a);
      CollapseRun(TrimStart(a), w, b);
      CollapseRunAfterWs(a, w, b);
    } else {
      CollapseRun(a[1..], w, b);
      CollapseRunAfterChar(a, w, b);
    }
  }

  /** The run at the very front becomes the leading space. */
  lemma CollapseRunFront(w: string, b: string)
    requires w != [] && forall i :: 0 <= i < |w| ==> IsWs(w[i])
    requires b == [] || !IsWs(b[0])
    ensures Collapse([] + w + b) == Collapse([]) + [' '] + Collapse(b)
  {
    CollapseRunWs(w, b);
    Regroup0(w, b);
    Regroup0([' '], Collapse(b));
    assert Collapse([]) == [];
  }

  lemma Regroup0(x: string, y: string)
    ensures [] + x + y == x + y
  {
  }

  /** The white-space case of the front run, on its own. */
  lemma CollapseRunWs(w: string, b: string)
    requires w != [] && forall i :: 0 <= i < |w| ==> IsWs(w[i])
    requires b == [] || !IsWs(b[0])
    ensures Collapse(w + b) == [' '] + Collapse(b)
  {
    TrimStartRun(w, b);
  }

  /** Leading white space cut from a text that ends in a character that is
      not white space leaves a text ending in that character. */
  lemma TrimStartKeepsLast(a: string)
    requires a != [] && !IsWs(a[|a| - 1])
    ensures TrimStart(a) != [] && TrimStart(a)[|TrimStart(a)| - 1] == a[|a| - 1]
  {
    TrimStartSuffix(a);
  }

  /** The step of `CollapseRun` over leading white space of `a`. */
  lemma CollapseRunAfterWs(a: string, w: string, b: string)
    requires a != [] && IsWs(a[0]) && !IsWs(a[|a| - 1])
    requires Collapse(TrimStart(a) + w + b) == Collapse(TrimStart(a)) + [' '] + Collapse(b)
    ensures Collapse(a + w + b) == Collapse(a) + [' '] + Collapse(b)
  {
    var t := TrimStart(a);
    Regroup3(a, w, b);
    Regroup3(t, w, b);
    TrimStartAppend(a, w + b);
    Regroup4([' '], Collapse(t), [' '], Collapse(b));
  }

  /** The step of `CollapseRun` over a first character of `a` that is not
      white space. */
  lemma CollapseRunAfterChar(a: string, w: string, b: string)
    requires a != [] && !IsWs(a[0])
    requires Collapse(a[1..] + w + b) == Collapse(a[1..]) + [' '] + Collapse(b)
    ensures Collapse(a + w + b) == Collapse(a) + [' '] + Collapse(b)
  {
    Regroup3(a, w, b);
    Regroup4([a[0]], Collapse(a[1..]), [' '], Collapse(b));
  }

  /** Trimming removes white space only. */
  lemma TrimNonWs(s: string)
    ensures NonWs(Trim(s)) == NonWs(s)
  {
    var r := Trim(s);
    var k := TrimOffset(s);
    TrimSlice(s);
    var e := k + |r|;
    assert s[..k] + s[k..e] == s[..e];
    assert s[..e] + s[e..] == s;
    assert s == s[..k] + r + s[k + |r|..];
    StripAppend(s[..k] + r, s[k + |r|..], IsWs);
    StripAppend(s[..k], r, IsWs);
    StripAll(s[..k], IsWs);
    StripAll(s[k + |r|..], IsWs);
  }

  // ---------------------------------------------------------------------
  // The sanitiser
  // ---------------------------------------------------------------------

  /** No character of a removed class. */
  predicate NoRemoved(s: string) {
    forall i :: 0 <= i < |s| ==> !Removed(s[i])
  }

  /** What every output of the sanitiser looks like: no removed character,
      no white space at either end, and every white-space character a
      single space between two characters that are not white space. */
  predicate Sanitized(s: string) {
    NoRemoved(s) && NoEdgeWs(s) && Collapsed(s)
  }

  /** The two removals and the collapse leave no removed character. */
  lemma FilteredNoRemoved(s: string)
    ensures NoRemoved(Collapse(Strip(Strip(s, DropEmoji), DropCJK)))
  {
    var e := Strip(s, DropEmoji);
    var c := Strip(e, DropCJK);
    StripKeeps(e, DropCJK, c => !DropEmoji(c));
    assert forall i :: 0 <= i < |c| ==> !Removed(c[i]);
    CollapseKeeps(c, c => !Removed(c));
  }

  /** Trimming a collapsed text free of removed characters sanitises it. */
  lemma TrimSanitizes(w: string)
    requires NoRemoved(w) && Collapsed(w)
    ensures Sanitized(Trim(w))
  {
    var r := Trim(w);
    var k := TrimOffset(w);
    TrimSlice(w);
    assert r == w[k..k + |r|];
    forall i | 0 <= i < |r|
      ensures r[i] == w[k + i]
    {
    }
    forall i | 0 <= i < |r|
      ensures !Removed(r[i])
    {
      assert !Removed(w[k + i]);
    }
    forall i | 0 <= i < |r| && IsWs(r[i])
      ensures r[i] == ' ' && (i + 1 < |r| ==> !IsWs(r[i + 1]))
    {
      assert IsWs(w[k + i]);
    }
  }

  /** The characters left after the two removals, then collapsed and
      trimmed: the body of `clearBadSymbols` for a string. */
  function Clean(s: string): (r: string)
    ensures Sanitized(r)
    ensures NonWs(r) == Kept(s)
  {
    var c := Strip(Strip(s, DropEmoji), DropCJK);
    var w := Collapse(c);
    FilteredNoRemoved(s);
    TrimSanitizes(w);
    StripThree(s);
    CollapseNonWs(c);
    TrimNonWs(w);
    Trim(w)
  }

  /** White space is never of a removed class. */
  lemma WsNotRemoved(c: char)
    requires IsWs(c)
    ensures !Removed(c)
  {
  }

  /** Two texts free of removed characters, with white space between
      them, are free of removed characters. */
  lemma NoRemovedJoin(a: string, w: string, b: string)
    requires NoRemoved(a) && NoRemoved(b)
    requires forall i :: 0 <= i < |w| ==> IsWs(w[i])
    ensures forall i :: 0 <= i < |a + w + b| ==> !DropEmoji((a + w + b)[i]) && !DropCJK((a + w + b)[i])
  {
    var s := a + w + b;
    forall i | 0 <= i < |s| ensures !Removed(s[i]) {
      if i < |a| {
        assert s[i] == a[i];
      } else if i < |a| + |w| {
        assert s[i] == w[i - |a|];
        WsNotRemoved(w[i - |a|]);
      } else {
        assert s[i] == b[i - |a| - |w|];
      }
    }
  }

  /** Two texts without edge white space, joined by one space, have no
      edge white space. */
  lemma JoinNoEdgeWs(a: string, b: string)
    requires NoEdgeWs(a) && NoEdgeWs(b) && a != [] && b != []
    ensures NoEdgeWs(a + [' '] + b)
  {
    var r := a + [' '] + b;
    assert r[0] == a[0] && r[|r| - 1] == b[|b| - 1];
  }

  /** Two sanitised texts separated by any run of white space come out of
      the sanitiser joined by exactly one space. */
  lemma CleanJoin(a: string, w: string, b: string)
    requires Sanitized(a) && Sanitized(b) && a != [] && b != []
    requires w != [] && forall i :: 0 <= i < |w| ==> IsWs(w[i])
    ensures Clean(a + w + b) == a + [' '] + b
  {
    NoRemovedJoin(a, w, b);
    StripNone(a + w + b, DropEmoji);
    StripNone(a + w + b, DropCJK);
    CollapseRun(a, w, b);
    CollapseFixed(a);
    CollapseFixed(b);
    JoinNoEdgeWs(a, b);
  }

  /** Two kept characters with white space between them: "a \t b" comes
      out as "a b". */
  lemma CleanTwoWords(x: char, w: string, y: char)
    requires !Discarded(x) && !Discarded(y)
    requires w != [] && forall i :: 0 <= i < |w| ==> IsWs(w[i])
    ensures Clean([x] + w + [y]) == [x, ' ', y]
  {
    CleanJoin([x], w, [y]);
  }

  /** A sanitised text passes through the sanitiser unchanged. */
  lemma CleanFixed(s: string)
    requires Sanitized(s)
    ensures Clean(s) == s
  {
    StripNone(s, DropEmoji);
    StripNone(s, DropCJK);
    CollapseFixed(s);
  }

  /** Sanitising twice is sanitising once. */
  lemma CleanIdempotent(s: string)
    ensures Clean(Clean(s)) == Clean(s)
  {
    CleanFixed(Clean(s));
  }

  /** A JavaScript value as `clearBadSymbols` sees it: a string, or anything
      else (`null`, a number, an object), told apart only by a tag. */
  datatype JsValue = Str(s: string) | NotString(tag: int)

  /** `clearBadSymbols(text)`: a value that is not a string is returned as
      it is; a string comes back sanitised, keeping exactly its kept
      characters in their order. */
  function ClearBadSymbols(text: JsValue): (r: JsValue)
    ensures !text.Str? ==> r == text
    ensures text.Str? ==> r.Str? && Sanitized(r.s) && NonWs(r.s) == Kept(text.s)
  {
    match text
    case Str(s) => Str(Clean(s))
    case NotString(_) => text
  }
}
