/** server/src/intent.c: the keyword matcher. */
module Intent {
  import opened CString

  const INTENT_NONE: int := -1

  type Text = seq<char>

  datatype Keywords = NoKeywords | Keywords(text: Text)
  datatype Entry = Entry(id: int, name: Text, keywords: Keywords)
  datatype Name = NoName | Name(text: Text)

  /** The needle occurs somewhere in the haystack, ignoring case. */
  ghost predicate Occurs(haystack: Text, needle: Text)
  {
    exists k :: OccursAt(haystack, needle, k)
  }

  predicate OccursAt(haystack: Text, needle: Text, k: int)
  {
    0 <= k && k + |needle| <= |haystack| && forall i | 0 <= i < |needle| :: Lower(haystack[k + i]) == Lower(needle[i])
  }

  /** `contains_ci`. */
  method ContainsCi(haystack: Text, needle: Text) returns (b: bool)
    ensures b <==> Occurs(haystack, needle)
  {
    hide Lower;
    if |needle| == 0 {
      assert OccursAt(haystack, needle, 0);
      return true;
    }
    var h := 0;
    while h < |haystack|
      invariant 0 <= h <= |haystack|
      invariant forall k | 0 <= k < h :: !OccursAt(haystack, needle, k)
    {
      var i := 0;
      while i < |needle| && h + i < |haystack| && Lower(haystack[h + i]) == Lower(needle[i])
        invariant 0 <= i <= |needle| && h + i <= |haystack|
        invariant forall j | 0 <= j < i :: Lower(haystack[h + j]) == Lower(needle[j])
      {
        i := i + 1;
      }
      if i == |needle| {
        assert OccursAt(haystack, needle, h);
        return true;
      }
      h := h + 1;
    }
    forall k
      ensures !OccursAt(haystack, needle, k)
    {}
    return false;
  }

  /** s[a..b] is a maximal run without spaces. */
  predicate IsToken(s: Text, a: int, b: int)
  {
    && 0 <= a < b <= |s| && ' ' !in s[a..b]
    && (a == 0 || s[a - 1] == ' ') && (b == |s| || s[b] == ' ')
  }

  /** Every token of the keyword phrase occurs in the transcript. */
  ghost predicate AllOccur(transcript: Text, keywords: Text)
  {
    forall a, b | IsToken(keywords, a, b) :: Occurs(transcript, keywords[a..b])
  }

  /** A token ends either at or before the position p of a separator, or starts after the spaces
      that follow p; the only one in between is the next maximal run. */
  lemma NextToken(s: Text, p: int, start: int, q: int, a: int, b: int)
    requires 0 <= p <= start <= q <= |s| && (p == 0 || p == |s| || s[p] == ' ')
    requires (forall i | p <= i < start :: s[i] == ' ') && (start == |s| || s[start] != ' ')
    requires (forall i | start <= i < q :: s[i] != ' ') && (q == |s| || s[q] == ' ')
    requires IsToken(s, a, b) && b <= q
    ensures b <= p || (a == start && b == q)
  {
    assert forall i | a <= i < b :: s[i] in s[a..b];
    assert s[a] != ' ';
    assert a <= p < b ==> s[p] != ' ';
  }

  /** `all_keywords_present`: the tokeniser visits every token and nothing else. */
  method AllKeywordsPresent(transcript: Text, keywords: Text) returns (b: bool)
    ensures b <==> AllOccur(transcript, keywords)
  {
    hide Occurs;
    var p := 0;
    NoTokenYet(keywords);
    while p < |keywords|
      invariant 0 <= p <= |keywords| && (p == 0 || p == |keywords| || keywords[p] == ' ')
      invariant forall a, e | IsToken(keywords, a, e) && e <= p :: Occurs(transcript, keywords[a..e])
      decreases |keywords| - p, if p < |keywords| && keywords[p] == ' ' then 1 else 0
    {
      ghost var p0 := p;
      while p < |keywords| && keywords[p] == ' '
        invariant p0 <= p <= |keywords|
        invariant forall i | p0 <= i < p :: keywords[i] == ' '
      {
        p := p + 1;
      }
      var start := p;
      while p < |keywords| && keywords[p] != ' '
        invariant start <= p <= |keywords|
        invariant forall i | start <= i < p :: keywords[i] != ' '
      {
        p := p + 1;
      }
      var klen := p - start;
      if klen > 0 {
        IsTheToken(keywords, p0, start, p);
        var found := ContainsCi(transcript, keywords[start..p]);
        if !found {
          return false;
        }
      }
      forall a, e | IsToken(keywords, a, e) && e <= p
        ensures Occurs(transcript, keywords[a..e])
      {
        NextToken(keywords, p0, start, p, a, e);
        TokenNotEmpty(keywords, a, e);
      }
    }
    forall a, e | IsToken(keywords, a, e)
      ensures e <= p
    {
      TokenNotEmpty(keywords, a, e);
    }
    return true;
  }

  lemma NoTokenYet(s: Text)
    ensures forall a, e | IsToken(s, a, e) :: e > 0
  {}

  lemma TokenNotEmpty(s: Text, a: int, e: int)
    requires IsToken(s, a, e)
    ensures 0 <= a < e <= |s|
  {}

  lemma IsTheToken(s: Text, p: int, start: int, q: int)
    requires 0 <= p <= start < q <= |s| && (p == 0 || s[p] == ' ')
    requires forall i | p <= i < start :: s[i] == ' '
    requires (forall i | start <= i < q :: s[i] != ' ') && (q == |s| || s[q] == ' ')
    ensures IsToken(s, start, q)
  {}

  ghost predicate Matches(e: Entry, transcript: Text)
  {
    e.keywords.Keywords? && AllOccur(transcript, e.keywords.text)
  }

  /** The position of the first entry all of whose keywords occur, or the length of the table. */
  ghost function FirstMatch(table: seq<Entry>, transcript: Text): (k: nat)
    ensures k <= |table| && forall j | 0 <= j < k :: !Matches(table[j], transcript)
    ensures k < |table| ==> Matches(table[k], transcript)
  {
    if table == [] || Matches(table[0], transcript) then 0
    else
      var k := FirstMatch(table[1..], transcript);
      assert forall j | 0 < j < k + 1 :: table[j] == table[1..][j - 1];
      k + 1
  }

  /** The id and the name of that entry, or the reserved "none" id and no name. */
  ghost function Recognise(table: seq<Entry>, transcript: Text): int
  {
    var k := FirstMatch(table, transcript);
    if k < |table| then table[k].id else INTENT_NONE
  }

  ghost function RecognisedName(table: seq<Entry>, transcript: Text): Name
  {
    var k := FirstMatch(table, transcript);
    if k < |table| then Name(table[k].name) else NoName
  }

  /** `intent_match`: the first entry all of whose keywords occur, or none. */
  method IntentMatch(table: seq<Entry>, transcript: Text) returns (id: int, name: Name, ghost index: nat)
    ensures index <= |table|
    ensures forall j | 0 <= j < index ::
      table[j].keywords.Keywords? ==> !AllOccur(transcript, table[j].keywords.text)
    ensures index < |table| ==>
      && table[index].keywords.Keywords? && AllOccur(transcript, table[index].keywords.text)
      && id == table[index].id && name == Name(table[index].name)
    ensures index == |table| ==> id == INTENT_NONE && name == NoName
    ensures id == Recognise(table, transcript) && name == RecognisedName(table, transcript)
  {
    hide AllOccur;
    for i := 0 to |table|
      invariant forall j | 0 <= j < i :: !Matches(table[j], transcript)
    {
      var e := table[i];
      var hit := MatchesEntry(e, transcript);
      if hit {
        return e.id, Name(e.name), i;
      }
    }
    return INTENT_NONE, NoName, |table|;
  }

  method MatchesEntry(e: Entry, transcript: Text) returns (b: bool)
    ensures b <==> Matches(e, transcript)
  {
    if e.keywords.NoKeywords? {
      return false;
    }
    b := AllKeywordsPresent(transcript, e.keywords.text);
  }

  /** Matching does not depend on the case of the transcript or of the keywords. */
  lemma CaseInsensitive(transcript: Text, transcript': Text, needle: Text, needle': Text)
    requires EqualIgnoringCase(transcript, transcript') && EqualIgnoringCase(needle, needle')
    ensures Occurs(transcript, needle) <==> Occurs(transcript', needle')
  {
    LowerPointwise(transcript, transcript');
    LowerPointwise(needle, needle');
    if k :| OccursAt(transcript, needle, k) {
      assert OccursAt(transcript', needle', k);
    }
    if k :| OccursAt(transcript', needle', k) {
      assert OccursAt(transcript, needle, k);
    }
  }

  lemma LowerPointwise(a: Text, b: Text)
    requires EqualIgnoringCase(a, b)
    ensures |a| == |b| && forall i | 0 <= i < |a| :: Lower(a[i]) == Lower(b[i])
  {
    assert |LowerAll(a)| == |a| && |LowerAll(b)| == |b|;
    forall i | 0 <= i < |a|
      ensures Lower(a[i]) == Lower(b[i])
    {
      assert LowerAll(a)[i] == LowerAll(b)[i];
    }
  }
}
