/** Which projects a recall query names (`resolveMemoryNamespaceDecision` in `src/chat/chat-memory-retrieval-policy.ts`):
    a namespace is matched when one of its phrases occurs in the query as a run of whole words. */
module NamespaceDecision {
  import opened Wrappers
  import opened Sorting

  datatype Ref = Ref(id: string, name: string, aliases: seq<string>)

  /** `retrievalQuery` is kept as its words. */
  datatype Decision = Decision(retrievalQuery: seq<string>, allowed: seq<string>, explicitMatch: bool)

  const NAMESPACE_WORDS: set<string> := {"project", "workspace", "repository", "repo"}

  // ----- phrases: word lists, compared as strings

  predicate Word(w: string) { w != "" && ' ' !in w }
  predicate AllWords(ws: seq<string>) { forall w :: w in ws ==> Word(w) }

  /** `tokens` yields words: it splits at everything that is no letter or digit and drops empty parts. */
  ghost predicate YieldsWords(tokens: string -> seq<string>) { forall text :: AllWords(tokens(text)) }

  /** Each word after a space. */
  function Lead(ws: seq<string>): string {
    if ws == [] then "" else " " + ws[0] + Lead(ws[1..])
  }

  /** The words joined by single spaces. */
  function Joined(ws: seq<string>): string { if ws == [] then "" else Lead(ws)[1..] }

  function Padded(ws: seq<string>): string { " " + Joined(ws) + " " }

  predicate IncludesAt(s: string, needle: string, k: nat) {
    k + |needle| <= |s| && s[k..k + |needle|] == needle
  }

  predicate Includes(s: string, needle: string) { exists k | 0 <= k <= |s| :: IncludesAt(s, needle, k) }

  /** `phrase` stands in `query` word for word, from word `i` on. */
  predicate OccursAt(query: seq<string>, phrase: seq<string>, i: nat) {
    i + |phrase| <= |query| && query[i..i + |phrase|] == phrase
  }

  predicate Occurs(query: seq<string>, phrase: seq<string>) { exists i | 0 <= i <= |query| :: OccursAt(query, phrase, i) }

  // ----- whole-word matching

  lemma {:induction false} LeadAppend(a: seq<string>, b: seq<string>)
    ensures Lead(a + b) == Lead(a) + Lead(b)
  {
    if a == [] {
      assert a + b == b;
    } else {
      assert (a + b)[1..] == a[1..] + b;
      LeadAppend(a[1..], b);
    }
  }

  lemma PaddedIsLead(ws: seq<string>)
    requires ws != []
    ensures Padded(ws) == Lead(ws) + " "
  {
  }

  lemma OccurrenceIncludes(query: seq<string>, phrase: seq<string>, i: nat)
    requires OccursAt(query, phrase, i)
    ensures IncludesAt(Lead(query) + " ", Lead(phrase) + " ", |Lead(query[..i])|)
  {
    var before, after := query[..i], query[i + |phrase|..];
    assert query == before + phrase + after;
    LeadAppend(before + phrase, after);
    LeadAppend(before, phrase);
    StartsWithSpace(after);
    FoundBehind(Lead(before), Lead(phrase), Lead(after) + " ");
    assert Lead(query) + " " == Lead(before) + Lead(phrase) + (Lead(after) + " ");
  }

  lemma StartsWithSpace(ws: seq<string>)
    ensures (Lead(ws) + " ")[0] == ' '
  {
  }

  lemma FoundBehind(front: string, text: string, tail: string)
    requires tail != "" && tail[0] == ' '
    ensures IncludesAt(front + text + tail, text + " ", |front|)
  {
    var s := front + text + tail;
    assert s[|front|..|front| + |text| + 1] == text + [tail[0]];
  }

  lemma FoundLater(front: string, rest: string, needle: string, k: nat)
    requires |front| <= k && IncludesAt(front + rest, needle, k)
    ensures IncludesAt(rest, needle, k - |front|)
  {
    assert (front + rest)[k..k + |needle|] == rest[k - |front|..k - |front| + |needle|];
  }

  /** Nothing that starts with a space is found inside a word. */
  lemma NotInsideWord(w: string, rest: string, needle: string, k: nat)
    requires Word(w) && needle != "" && needle[0] == ' ' && 0 < k && IncludesAt(" " + w + rest, needle, k)
    ensures k >= 1 + |w|
  {
    var s := " " + w + rest;
    assert forall i :: 1 <= i < 1 + |w| ==> s[i] == w[i - 1] && s[i] != ' ';
    assert s[k] == s[k..k + |needle|][0] == ' ';
  }

  lemma SameFirstWord(w: string, x: string, v: string, y: string)
    requires Word(w) && Word(v) && x != "" && x[0] == ' ' && y != "" && y[0] == ' '
    requires w + x <= v + y
    ensures w == v && x <= y
  {
    var whole := v + y;
    assert whole[|w|] == (w + x)[|w|] == ' ';
    assert forall i :: 0 <= i < |w| ==> whole[i] == w[i];
    assert whole[|v|] == ' ';
    assert |w| == |v|;
    assert w == whole[..|w|] == v;
    assert (w + x)[|w|..] == x && whole[|w|..] == y;
  }

  lemma {:induction false} PrefixIsWordPrefix(phrase: seq<string>, query: seq<string>)
    requires AllWords(phrase) && AllWords(query) && Lead(phrase) + " " <= Lead(query) + " "
    ensures phrase <= query
  {
    if phrase != [] {
      assert phrase[0] in phrase;
      if query != [] {
        assert query[0] in query;
        var x, y := Lead(phrase[1..]) + " ", Lead(query[1..]) + " ";
        assert (Lead(phrase) + " ")[1..] == phrase[0] + x && (Lead(query) + " ")[1..] == query[0] + y;
        SameFirstWord(phrase[0], x, query[0], y);
        PrefixIsWordPrefix(phrase[1..], query[1..]);
        assert phrase == [phrase[0]] + phrase[1..] && query == [query[0]] + query[1..];
      }
    }
  }

  lemma SliceOfTail(s: seq<string>, j: nat, n: nat)
    requires 1 + j + n <= |s|
    ensures s[1..][j..j + n] == s[j + 1..j + 1 + n]
  {
  }

  lemma {:induction false} InclusionOccurs(query: seq<string>, phrase: seq<string>, k: nat) returns (i: nat)
    requires AllWords(query) && AllWords(phrase) && phrase != []
    requires IncludesAt(Lead(query) + " ", Lead(phrase) + " ", k)
    ensures OccursAt(query, phrase, i)
  {
    var needle := Lead(phrase) + " ";
    StartsWithSpace(phrase);
    if k == 0 {
      assert needle <= Lead(query) + " ";
      PrefixIsWordPrefix(phrase, query);
      i := 0;
    } else {
      assert query != [] by { assert phrase[0] in phrase && |needle| >= 2; }
      assert query[0] in query;
      var rest := Lead(query[1..]) + " ";
      assert Lead(query) + " " == " " + query[0] + rest;
      NotInsideWord(query[0], rest, needle, k);
      FoundLater(" " + query[0], rest, needle, k);
      var j := InclusionOccurs(query[1..], phrase, k - 1 - |query[0]|);
      i := j + 1;
      SliceOfTail(query, j, |phrase|);
    }
  }

  /** The padded string test finds whole words only: it holds exactly when the phrase's words follow one another in the
      query. */
  lemma IncludesIsWordMatch(query: seq<string>, phrase: seq<string>)
    requires AllWords(query) && AllWords(phrase) && phrase != []
    ensures Includes(Padded(query), Padded(phrase)) <==> Occurs(query, phrase)
  {
    PaddedIsLead(phrase);
    if query == [] {
      assert phrase[0] in phrase;
      assert Padded(query) == "  ";
      assert |Lead(phrase)| >= 2;
    } else {
      PaddedIsLead(query);
      if k: nat :| k <= |Padded(query)| && IncludesAt(Padded(query), Padded(phrase), k) {
        var i := InclusionOccurs(query, phrase, k);
      }
      if i: nat :| i <= |query| && OccursAt(query, phrase, i) {
        OccurrenceIncludes(query, phrase, i);
      }
    }
  }

  // ----- the decision

  function PhrasesFrom(tokens: string -> seq<string>, texts: seq<string>): seq<seq<string>> {
    if texts == [] then []
    else (if |Joined(tokens(texts[0]))| >= 2 then [tokens(texts[0])] else []) + PhrasesFrom(tokens, texts[1..])
  }

  function LongestFirst(): (seq<string>, seq<string>) -> bool {
    (a: seq<string>, b: seq<string>) => |Joined(a)| >= |Joined(b)|
  }

  function Names(ns: Ref): seq<string> { [ns.name] + ns.aliases + [ns.id] }

  function NamespacePhrases(tokens: string -> seq<string>, ns: Ref): seq<seq<string>> {
    Sort(PhrasesFrom(tokens, Names(ns)), LongestFirst())
  }

  function FirstIncluded(query: seq<string>, phrases: seq<seq<string>>): Option<seq<string>> {
    if phrases == [] then None
    else if Includes(Padded(query), Padded(phrases[0])) then Some(phrases[0])
    else FirstIncluded(query, phrases[1..])
  }

  /** The phrase by which the query names the namespace. */
  function NamedBy(tokens: string -> seq<string>, query: seq<string>, ns: Ref): Option<seq<string>> {
    FirstIncluded(query, NamespacePhrases(tokens, ns))
  }

  function AddOnce(ids: seq<string>, id: string): seq<string> { if id in ids then ids else ids + [id] }

  function WordSet(words: seq<string>): set<string> { set w | w in words }

  function MatchedIds(tokens: string -> seq<string>, query: seq<string>, refs: seq<Ref>): seq<string> {
    if refs == [] then []
    else
      var before, last := MatchedIds(tokens, query, refs[..|refs| - 1]), refs[|refs| - 1];
      if NamedBy(tokens, query, last).Some? then AddOnce(before, last.id) else before
  }

  function MatchedWords(tokens: string -> seq<string>, query: seq<string>, refs: seq<Ref>): set<string> {
    if refs == [] then {}
    else
      MatchedWords(tokens, query, refs[..|refs| - 1])
      + match NamedBy(tokens, query, refs[|refs| - 1]) case Some(p) => WordSet(p) case None => {}
  }

  lemma MatchedOneMore(tokens: string -> seq<string>, query: seq<string>, refs: seq<Ref>, last: Ref)
    ensures var p := NamedBy(tokens, query, last);
      && MatchedIds(tokens, query, refs + [last])
           == (if p.Some? then AddOnce(MatchedIds(tokens, query, refs), last.id) else MatchedIds(tokens, query, refs))
      && MatchedWords(tokens, query, refs + [last])
           == MatchedWords(tokens, query, refs) + if p.Some? then WordSet(p.value) else {}
  {
    assert (refs + [last])[..|refs|] == refs;
  }

  function Dropping(words: seq<string>, drop: set<string>): seq<string> {
    if words == [] then []
    else (if words[0] in drop then [] else [words[0]]) + Dropping(words[1..], drop)
  }

  function Decide(tokens: string -> seq<string>, text: string, refs: seq<Ref>, default: Option<string>): Decision {
    var query := tokens(text);
    var matched := MatchedIds(tokens, query, refs);
    Decision(Dropping(query, NAMESPACE_WORDS + if matched != [] then MatchedWords(tokens, query, refs) else {}),
             if matched != [] then matched else if default.Some? && default.value != "" then [default.value] else [],
             matched != [])
  }

  method FindPhrase(query: seq<string>, phrases: seq<seq<string>>) returns (found: Option<seq<string>>)
    ensures found == FirstIncluded(query, phrases)
  {
    for i := 0 to |phrases|
      invariant FirstIncluded(query, phrases) == FirstIncluded(query, phrases[i..])
    {
      assert phrases[i..][1..] == phrases[i + 1..];
      if Includes(Padded(query), Padded(phrases[i])) {
        return Some(phrases[i]);
      }
    }
    found := None;
  }

  predicate Found(tokens: string -> seq<string>, query: seq<string>, refs: seq<Ref>, matched: seq<string>, words: set<string>) {
    matched == MatchedIds(tokens, query, refs) && words == MatchedWords(tokens, query, refs)
  }

  /** One namespace: its id and the words of its phrase are added when the query names it. */
  method MatchOne(tokens: string -> seq<string>, query: seq<string>, ghost refs: seq<Ref>, ns: Ref, matched0: seq<string>,
                  words0: set<string>)
    returns (matched: seq<string>, words: set<string>)
    requires Found(tokens, query, refs, matched0, words0)
    ensures Found(tokens, query, refs + [ns], matched, words)
  {
    matched, words := matched0, words0;
    MatchedOneMore(tokens, query, refs, ns);
    var phrase := FindPhrase(query, NamespacePhrases(tokens, ns));
    if phrase.Some? {
      matched := AddOnce(matched, ns.id);
      words := words + WordSet(phrase.value);
    }
  }

  method MatchNamespaces(tokens: string -> seq<string>, query: seq<string>, refs: seq<Ref>)
    returns (matched: seq<string>, words: set<string>)
    ensures matched == MatchedIds(tokens, query, refs) && words == MatchedWords(tokens, query, refs)
  {
    matched, words := [], {};
    assert refs[..0] == [];
    for i := 0 to |refs|
      invariant Found(tokens, query, refs[..i], matched, words)
    {
      assert refs[..i + 1] == refs[..i] + [refs[i]];
      matched, words := MatchOne(tokens, query, refs[..i], refs[i], matched, words);
    }
    assert refs[..|refs|] == refs;
  }

  method ResolveMemoryNamespaceDecision(tokens: string -> seq<string>, text: string, refs: seq<Ref>, default: Option<string>)
    returns (d: Decision)
    ensures d == Decide(tokens, text, refs, default)
  {
    var query := tokens(text);
    var matched, words := MatchNamespaces(tokens, query, refs);
    var explicitMatch := |matched| > 0;
    var allowed := if explicitMatch then matched else if default.Some? && default.value != "" then [default.value] else [];
    d := Decision(Dropping(query, NAMESPACE_WORDS + if explicitMatch then words else {}), allowed, explicitMatch);
  }

  // ----- what the decision means

  /** The query names the namespace: one of its texts is long enough and its words follow one another in the query. */
  ghost predicate Named(tokens: string -> seq<string>, query: seq<string>, ns: Ref) {
    exists t :: Calls(ns, t) && |Joined(tokens(t))| >= 2 && Occurs(query, tokens(t))
  }

  /** The namespace goes by this text: its name, an alias or its id. */
  predicate Calls(ns: Ref, t: string) { t == ns.name || t in ns.aliases || t == ns.id }

  lemma {:induction false} PhraseMembers(tokens: string -> seq<string>, texts: seq<string>)
    ensures forall p :: p in PhrasesFrom(tokens, texts) <==> exists t :: t in texts && |Joined(tokens(t))| >= 2 && p == tokens(t)
  {
    if texts != [] {
      PhraseMembers(tokens, texts[1..]);
      assert texts == [texts[0]] + texts[1..];
    }
  }

  lemma SortedMembers(phrases: seq<seq<string>>)
    ensures forall p :: p in Sort(phrases, LongestFirst()) <==> p in phrases
  {
    SortKeepsElements(phrases, LongestFirst());
    forall p
      ensures p in Sort(phrases, LongestFirst()) <==> p in phrases
    {
      assert p in multiset(Sort(phrases, LongestFirst())) <==> p in multiset(phrases);
    }
  }

  lemma {:induction false} FirstIncludedFacts(query: seq<string>, phrases: seq<seq<string>>)
    requires SortedBy(phrases, LongestFirst())
    ensures match FirstIncluded(query, phrases)
      case None => forall p :: p in phrases ==> !Includes(Padded(query), Padded(p))
      case Some(found) =>
        && found in phrases && Includes(Padded(query), Padded(found))
        && forall p :: p in phrases && Includes(Padded(query), Padded(p)) ==> |Joined(p)| <= |Joined(found)|
  {
    if phrases != [] {
      FirstIncludedFacts(query, phrases[1..]);
      assert phrases == [phrases[0]] + phrases[1..];
      forall p | p in phrases
        ensures |Joined(p)| <= |Joined(phrases[0])|
      {
        var i :| 0 <= i < |phrases| && phrases[i] == p;
        if i > 0 { assert LongestFirst()(phrases[0], phrases[i]); }
      }
    }
  }

  /** A namespace is matched exactly when the query names it, and then by the longest of its phrases that occur. */
  lemma NamedByMeansNamed(tokens: string -> seq<string>, query: seq<string>, ns: Ref)
    requires YieldsWords(tokens) && AllWords(query)
    ensures NamedBy(tokens, query, ns).Some? <==> Named(tokens, query, ns)
    ensures NamedBy(tokens, query, ns).Some? ==> var p := NamedBy(tokens, query, ns).value;
      && Occurs(query, p)
      && forall t :: Calls(ns, t) && |Joined(tokens(t))| >= 2 && Occurs(query, tokens(t)) ==> |Joined(tokens(t))| <= |Joined(p)|
  {
    assert forall t :: Calls(ns, t) <==> t in Names(ns);
    var from := PhrasesFrom(tokens, Names(ns));
    var phrases := NamespacePhrases(tokens, ns);
    PhraseMembers(tokens, Names(ns));
    SortedMembers(from);
    SortSorts(from, LongestFirst());
    FirstIncludedFacts(query, phrases);
    forall p | p in phrases
      ensures Includes(Padded(query), Padded(p)) <==> Occurs(query, p)
    {
      var t :| t in Names(ns) && |Joined(tokens(t))| >= 2 && p == tokens(t);
      assert AllWords(tokens(t));
      IncludesIsWordMatch(query, p);
    }
    forall t | t in Names(ns) && |Joined(tokens(t))| >= 2
      ensures tokens(t) in phrases
    {
      assert tokens(t) in from;
    }
  }

  /** The query names a known namespace of this id. */
  ghost predicate NamesId(tokens: string -> seq<string>, query: seq<string>, refs: seq<Ref>, id: string) {
    exists ns :: ns in refs && ns.id == id && Named(tokens, query, ns)
  }

  lemma OneMoreRef(tokens: string -> seq<string>, query: seq<string>, refs: seq<Ref>, last: Ref, id: string)
    ensures NamesId(tokens, query, refs + [last], id)
      <==> NamesId(tokens, query, refs, id) || (last.id == id && Named(tokens, query, last))
  {
    var all := refs + [last];
    assert forall ns :: ns in all <==> ns in refs || ns == last;
  }

  lemma MatchedOneMoreMember(tokens: string -> seq<string>, query: seq<string>, refs: seq<Ref>, last: Ref, id: string)
    requires YieldsWords(tokens) && AllWords(query)
    ensures id in MatchedIds(tokens, query, refs + [last])
      <==> id in MatchedIds(tokens, query, refs) || (last.id == id && Named(tokens, query, last))
  {
    MatchedOneMore(tokens, query, refs, last);
    NamedByMeansNamed(tokens, query, last);
  }

  lemma {:induction false} MatchedMembers(tokens: string -> seq<string>, query: seq<string>, refs: seq<Ref>, id: string)
    requires YieldsWords(tokens) && AllWords(query)
    ensures id in MatchedIds(tokens, query, refs) <==> NamesId(tokens, query, refs, id)
  {
    if refs != [] {
      var init, last := refs[..|refs| - 1], refs[|refs| - 1];
      MatchedMembers(tokens, query, init, id);
      assert refs == init + [last];
      MatchedOneMoreMember(tokens, query, init, last, id);
      OneMoreRef(tokens, query, init, last, id);
    }
  }

  /** Recall across projects is opened exactly to the namespaces that the query names; when it names none, to the active
      one alone, or to none without an active one. */
  lemma OnlyNamedNamespacesAreAllowed(tokens: string -> seq<string>, text: string, refs: seq<Ref>, default: Option<string>, id: string)
    requires YieldsWords(tokens)
    ensures var d, query := Decide(tokens, text, refs, default), tokens(text);
      && (d.explicitMatch <==> exists ns :: ns in refs && Named(tokens, query, ns))
      && (id in d.allowed <==>
            if d.explicitMatch then NamesId(tokens, query, refs, id) else default == Some(id) && id != "")
  {
    var query := tokens(text);
    assert AllWords(query);
    MatchedMembers(tokens, query, refs, id);
    var matched := MatchedIds(tokens, query, refs);
    if matched != [] {
      MatchedMembers(tokens, query, refs, matched[0]);
      assert matched[0] in matched;
    }
    if ns :| ns in refs && Named(tokens, query, ns) {
      MatchedMembers(tokens, query, refs, ns.id);
    }
  }

  /** The word belongs to the phrase by which the query names some namespace. */
  ghost predicate InMatchedPhrase(tokens: string -> seq<string>, query: seq<string>, refs: seq<Ref>, w: string) {
    exists ns :: ns in refs && NamedBy(tokens, query, ns).Some? && w in NamedBy(tokens, query, ns).value
  }

  lemma {:induction false} MatchedWordMembers(tokens: string -> seq<string>, query: seq<string>, refs: seq<Ref>, w: string)
    ensures w in MatchedWords(tokens, query, refs) <==> InMatchedPhrase(tokens, query, refs, w)
  {
    if refs != [] {
      var init, last := refs[..|refs| - 1], refs[|refs| - 1];
      assert refs == init + [last] && forall ns :: ns in refs <==> ns in init || ns == last;
      MatchedOneMore(tokens, query, init, last);
      MatchedWordMembers(tokens, query, init, w);
    }
  }

  lemma {:induction false} NoNamesNoWords(tokens: string -> seq<string>, query: seq<string>, refs: seq<Ref>)
    requires MatchedIds(tokens, query, refs) == []
    ensures MatchedWords(tokens, query, refs) == {}
  {
    if refs != [] { NoNamesNoWords(tokens, query, refs[..|refs| - 1]); }
  }

  lemma {:induction false} DroppingMembers(words: seq<string>, drop: set<string>)
    ensures forall w :: w in Dropping(words, drop) <==> w in words && w !in drop
  {
    if words != [] {
      DroppingMembers(words[1..], drop);
      assert words == [words[0]] + words[1..];
    }
  }

  /** What is searched for is the query without the generic words and without the names of the projects it is sent to;
      nothing else is dropped. */
  lemma OnlyNamesAreDropped(tokens: string -> seq<string>, text: string, refs: seq<Ref>, default: Option<string>, w: string)
    ensures w in Decide(tokens, text, refs, default).retrievalQuery
      <==> w in tokens(text) && w !in NAMESPACE_WORDS && !InMatchedPhrase(tokens, tokens(text), refs, w)
  {
    var query := tokens(text);
    MatchedWordMembers(tokens, query, refs, w);
    if MatchedIds(tokens, query, refs) == [] { NoNamesNoWords(tokens, query, refs); }
    DroppingMembers(query, NAMESPACE_WORDS + if MatchedIds(tokens, query, refs) != [] then MatchedWords(tokens, query, refs) else {});
  }

  lemma CutLater(words: seq<string>, k: nat)
    requires 0 < k <= |words|
    ensures words[..k] != [] && words[..k][0] == words[0]
    ensures words[..k][1..] == words[1..][..k - 1] && words[k..] == words[1..][k - 1..]
  {
  }

  lemma {:induction false} DroppingInOrder(words: seq<string>, drop: set<string>, k: nat)
    requires k <= |words|
    ensures Dropping(words, drop) == Dropping(words[..k], drop) + Dropping(words[k..], drop)
  {
    if k > 0 {
      DroppingInOrder(words[1..], drop, k - 1);
      CutLater(words, k);
    }
  }

  /** What is left of the query stands in its old order: two words that stay, stay in order. */
  lemma SearchKeepsOrder(tokens: string -> seq<string>, text: string, refs: seq<Ref>, default: Option<string>, i: nat, j: nat)
    requires i < j < |tokens(text)|
    requires tokens(text)[i] in Decide(tokens, text, refs, default).retrievalQuery
    requires tokens(text)[j] in Decide(tokens, text, refs, default).retrievalQuery
    ensures exists k, l :: 0 <= k < l < |Decide(tokens, text, refs, default).retrievalQuery|
                           && Decide(tokens, text, refs, default).retrievalQuery[k] == tokens(text)[i]
                           && Decide(tokens, text, refs, default).retrievalQuery[l] == tokens(text)[j]
  {
    var query, left := tokens(text), Decide(tokens, text, refs, default).retrievalQuery;
    var drop := NAMESPACE_WORDS + if MatchedIds(tokens, query, refs) != [] then MatchedWords(tokens, query, refs) else {};
    DroppingMembers(query, drop);
    DroppingInOrder(query, drop, j);
    DroppingMembers(query[..j], drop);
    assert query[..j][i] == query[i];
    var front := Dropping(query[..j], drop);
    var k :| 0 <= k < |front| && front[k] == query[i];
    assert query[j..][0] == query[j] && left[|front|] == query[j] && left[k] == query[i];
  }

  /** Each namespace is opened once. */
  lemma {:induction false} OpenedOnce(tokens: string -> seq<string>, query: seq<string>, refs: seq<Ref>)
    ensures forall i, j :: 0 <= i < j < |MatchedIds(tokens, query, refs)| ==>
              MatchedIds(tokens, query, refs)[i] != MatchedIds(tokens, query, refs)[j]
  {
    if refs != [] { OpenedOnce(tokens, query, refs[..|refs| - 1]); }
  }
}
