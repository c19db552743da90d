/** `extractCodeBlock` (js/app.js:73-76) and the reply state it feeds
    (js/app.js:78-82). The regular expression
    ```` /```(?:\w+)?\n([\s\S]*?)```/ ```` is written out as a scan: an
    opening fence is three backquotes, an optional run of word characters
    and a newline; the block ends at the nearest following three backquotes;
    the leftmost opening fence that has such an end wins. The optional word
    run is greedy, but giving back characters cannot help because the next
    character must be a newline, so each position has at most one way to
    open a block. */
module CodeBlock {
  import opened Optional
  import opened JsStrings

  const Fence := "```"

  predicate FenceAt(s: string, i: nat) {
    i + 3 <= |s| && s[i..i + 3] == Fence
  }

  /** The end of the run of word characters that starts at `k`. */
  function WordRunEnd(s: string, k: nat): (j: nat)
    requires k <= |s|
    ensures k <= j <= |s|
    ensures forall m :: k <= m < j ==> IsWordChar(s[m])
    ensures j == |s| || !IsWordChar(s[j])
    decreases |s| - k
  {
    if k < |s| && IsWordChar(s[k]) then WordRunEnd(s, k + 1) else k
  }

  /** An opening fence at `i`: three backquotes, word characters, newline. */
  predicate OpensAt(s: string, i: nat) {
    FenceAt(s, i) && WordRunEnd(s, i + 3) < |s| && s[WordRunEnd(s, i + 3)] == '\n'
  }

  /** Where the code of a block opened at `i` begins. */
  function ContentStart(s: string, i: nat): (k: nat)
    requires OpensAt(s, i)
    ensures i + 4 <= k <= |s|
  {
    WordRunEnd(s, i + 3) + 1
  }

  /** The nearest closing fence at or after `k`, the lazy `*?`. */
  function FindClose(s: string, k: nat): (m: Option<nat>)
    requires k <= |s|
    ensures m.Some? ==> k <= m.value && FenceAt(s, m.value)
    ensures m.Some? ==> forall j :: k <= j < m.value ==> !FenceAt(s, j)
    ensures m.None? ==> forall j :: k <= j <= |s| ==> !FenceAt(s, j)
    decreases |s| - k
  {
    if |s| - k < 3 then None
    else if FenceAt(s, k) then Some(k)
    else FindClose(s, k + 1)
  }

  /** A match of the pattern at position `i`. */
  predicate BlockAt(s: string, i: nat) {
    OpensAt(s, i) && FindClose(s, ContentStart(s, i)).Some?
  }

  /** The position of the leftmost match at or after `i`. */
  function FindBlock(s: string, i: nat): (o: Option<nat>)
    requires i <= |s|
    ensures o.Some? ==> i <= o.value && BlockAt(s, o.value)
    decreases |s| - i
  {
    if |s| - i < 4 then None
    else if BlockAt(s, i) then Some(i)
    else FindBlock(s, i + 1)
  }

  /** The scan misses no match: what it finds is the leftmost one, and when
      it finds none there is none. */
  lemma {:induction false} FindBlockLeftmost(s: string, i: nat)
    requires i <= |s|
    ensures FindBlock(s, i).Some? ==> forall j :: i <= j < FindBlock(s, i).value ==> !BlockAt(s, j)
    ensures FindBlock(s, i).None? ==> forall j :: i <= j <= |s| ==> !BlockAt(s, j)
    decreases |s| - i
  {
    if |s| - i < 4 {
      NoBlockNearEnd(s, i);
    } else if !BlockAt(s, i) {
      FindBlockLeftmost(s, i + 1);
    }
  }

  /** No block opens in the last three characters. */
  lemma NoBlockNearEnd(s: string, i: nat)
    requires |s| < i + 4
    ensures forall j :: i <= j <= |s| ==> !BlockAt(s, j)
  {
  }

  /** `extractCodeBlock(text)`: the code of the first block, trimmed, or the
      empty string when the text has none. */
  function ExtractCodeBlock(text: string): (r: string)
    ensures Trimmed(r)
  {
    match FindBlock(text, 0)
    case None => ""
    case Some(o) =>
      var k := ContentStart(text, o);
      Trim(text[k..FindClose(text, k).value])
  }

  /** The text has no match at all. */
  ghost predicate NoBlock(text: string) {
    forall j :: 0 <= j <= |text| ==> !BlockAt(text, j)
  }

  /** `code` is what the capture group of the leftmost match, at `i`, holds. */
  ghost predicate IsFirstBlockCode(text: string, i: nat, code: string) {
    && BlockAt(text, i)
    && (forall j :: 0 <= j < i ==> !BlockAt(text, j))
    && code == text[ContentStart(text, i)..FindClose(text, ContentStart(text, i)).value]
  }

  /** When the text has a match, the result is its captured code, trimmed. */
  lemma {:induction false} ExtractFirstBlock(text: string, i: nat, code: string)
    requires IsFirstBlockCode(text, i, code)
    ensures ExtractCodeBlock(text) == Trim(code)
  {
    var o := FindBlock(text, 0);
    FindBlockLeftmost(text, 0);
    assert o.Some?;
    assert o.value <= i;
    assert i <= o.value;
  }

  /** Without a match the result is the empty string. */
  lemma ExtractWithoutBlock(text: string)
    requires NoBlock(text)
    ensures ExtractCodeBlock(text) == ""
  {
  }

  /** A text with a match has a leftmost one, whose capture is unique. */
  lemma FirstBlockExists(text: string) returns (i: nat, code: string)
    requires !NoBlock(text)
    ensures IsFirstBlockCode(text, i, code)
  {
    FindBlockLeftmost(text, 0);
    i := FindBlock(text, 0).value;
    var k := ContentStart(text, i);
    code := text[k..FindClose(text, k).value];
  }

  /** A reply made of one fenced block, whose language tag is word
      characters and whose code holds no backquote, gives back its code,
      trimmed. */
  lemma {:induction false} ExtractFencedCode(lang: string, code: string)
    requires forall k :: 0 <= k < |lang| ==> IsWordChar(lang[k])
    requires forall k :: 0 <= k < |code| ==> code[k] != '`'
    ensures ExtractCodeBlock(Fence + lang + "\n" + code + Fence) == Trim(code)
  {
    var s := Fence + lang + "\n" + code + Fence;
    var k := 4 + |lang|;
    var m := k + |code|;
    assert s[..3] == Fence;
    WordRunEndAt(s, 3, |lang|);
    assert s[3 + |lang|] == '\n';
    assert OpensAt(s, 0);
    assert ContentStart(s, 0) == k;
    assert s[m..m + 3] == Fence;
    forall j | k <= j < m ensures !FenceAt(s, j) {
      assert s[j] == code[j - k];
    }
    FindCloseAt(s, k, m);
    assert s[k..m] == code;
  }

  lemma {:induction false} WordRunEndAt(s: string, k: nat, n: nat)
    requires k + n < |s|
    requires forall j :: k <= j < k + n ==> IsWordChar(s[j])
    requires !IsWordChar(s[k + n])
    ensures WordRunEnd(s, k) == k + n
    decreases n
  {
    if n > 0 {
      WordRunEndAt(s, k + 1, n - 1);
    }
  }

  lemma {:induction false} FindCloseAt(s: string, k: nat, m: nat)
    requires k <= m && FenceAt(s, m)
    requires forall j :: k <= j < m ==> !FenceAt(s, j)
    ensures FindClose(s, k) == Some(m)
    decreases m - k
  {
    if k < m {
      FindCloseAt(s, k + 1, m);
    }
  }

  /** The panel's record of the last reply: the reply text, or `""` when the
      reply was falsy, and whether the insert-code button is disabled. */
  datatype ReplyState = ReplyState(lastReply: string, insertDisabled: bool)

  /** `updateLastGptReply(reply)` (js/app.js:78-82). */
  function UpdateLastGptReply(reply: Option<string>): (st: ReplyState)
    ensures reply.None? ==> st.lastReply == ""
    ensures reply.Some? ==> st.lastReply == reply.value
    ensures st.insertDisabled <==> ExtractCodeBlock(st.lastReply) == ""
  {
    var last := Or(reply, "");
    ReplyState(last, ExtractCodeBlock(last) == "")
  }

  /** A reply without a fenced block leaves the insert-code button
      disabled. */
  lemma InsertDisabledWithoutBlock(reply: Option<string>)
    requires NoBlock(Or(reply, ""))
    ensures UpdateLastGptReply(reply).insertDisabled
  {
    ExtractWithoutBlock(Or(reply, ""));
  }

  /** With a fenced block, the insert-code button is enabled exactly when
      the first block holds something besides whitespace. */
  lemma InsertEnabledIff(reply: Option<string>, i: nat, code: string)
    requires IsFirstBlockCode(Or(reply, ""), i, code)
    ensures !UpdateLastGptReply(reply).insertDisabled <==> !AllWhitespace(code)
  {
    ExtractFirstBlock(Or(reply, ""), i, code);
  }
}
