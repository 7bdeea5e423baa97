/** The deeplink URL classifier of `onAction`: one regular expression made of four
    alternatives, each a literal path prefix followed by a named `\w+` group,
    matched with JavaScript `String.prototype.match` (no flags). The leftmost start
    position wins; at one position the alternatives are tried in order. */
module UrlClassifier {
  import opened Wrappers
  import opened Text

  /** The four alternatives, named after their capture groups. */
  datatype Kind = Quiz | Dial | Content | Course

  /** The alternatives in the order the combined pattern lists them. */
  const Alternatives: seq<Kind> := [Quiz, Dial, Content, Course]

  /** The literal prefixes of one alternative, in the order its inner `(?:a|b)` tries them. */
  function Prefixes(k: Kind): seq<string> {
    match k
    case Quiz => ["/resources/play/content/"]
    case Dial => ["/dial/", "/QR/"]
    case Content => ["/play/content/", "/play/collection/"]
    case Course => ["/explore-course/course/", "/learn/course/"]
  }

  /** The prefix `p` occurs at `i` and is followed by at least one word character,
      which is all `p(?<group>\w+)` needs to match at `i`. */
  predicate PrefixThenWord(s: string, i: int, p: string) {
    OccursAt(s, i, p) && i + |p| < |s| && IsWordChar(s[i + |p|])
  }

  /** Alternative `k` of the pattern can match starting at index `i`. */
  predicate Matches(s: string, i: int, k: Kind) {
    exists j :: 0 <= j < |Prefixes(k)| && PrefixThenWord(s, i, Prefixes(k)[j])
  }

  /** `v` is the whole run of word characters that starts at `start`: what a
      greedy `\w+` captures there. */
  predicate MaximalWordRun(s: string, start: int, v: string) {
    |v| > 0 && OccursAt(s, start, v)
    && (forall j :: 0 <= j < |v| ==> IsWordChar(v[j]))
    && (start + |v| == |s| || !IsWordChar(s[start + |v|]))
  }

  /** A successful match: where it starts, which alternative matched, through
      which literal prefix, and the text of its named group. */
  datatype UrlMatch = UrlMatch(index: nat, kind: Kind, prefix: string, value: string) {
    /** Index of the first character of the captured group. */
    function GroupStart(): nat {
      index + |prefix|
    }
  }

  /** `m` is a match of alternative `m.kind` at `m.index` in `s`, with the group
      capturing what greedy `\w+` captures. */
  predicate IsMatchIn(s: string, m: UrlMatch) {
    m.prefix in Prefixes(m.kind)
    && OccursAt(s, m.index, m.prefix)
    && MaximalWordRun(s, m.GroupStart(), m.value)
  }

  /** No alternative matches at any index in `[from, to)`. */
  predicate NoMatchBetween(s: string, from: int, to: int) {
    forall i, k :: from <= i < to ==> !Matches(s, i, k)
  }

  /** Length of the run of word characters starting at `i`; greedy `\w+` takes all of it. */
  function WordRun(s: string, i: nat): (n: nat)
    requires i <= |s|
    decreases |s| - i
    ensures i + n <= |s|
    ensures forall j :: i <= j < i + n ==> IsWordChar(s[j])
    ensures i + n == |s| || !IsWordChar(s[i + n])
  {
    if i < |s| && IsWordChar(s[i]) then 1 + WordRun(s, i + 1) else 0
  }

  /** The first of `ps` that matches at `i` followed by a word character. */
  function FirstPrefixAt(s: string, i: nat, ps: seq<string>): (r: Option<string>)
    ensures r.Some? ==> r.value in ps && PrefixThenWord(s, i, r.value)
    ensures r.None? <==> forall j :: 0 <= j < |ps| ==> !PrefixThenWord(s, i, ps[j])
  {
    if ps == [] then None
    else if PrefixThenWord(s, i, ps[0]) then Some(ps[0])
    else FirstPrefixAt(s, i, ps[1..])
  }

  /** The match of alternative `k` through its prefix `p` at `i`, with the
      group capturing the whole word run after `p`. */
  function Capture(s: string, i: nat, k: Kind, p: string): (m: UrlMatch)
    requires p in Prefixes(k) && PrefixThenWord(s, i, p)
    ensures m.index == i && m.kind == k && m.prefix == p
    ensures IsMatchIn(s, m) && Matches(s, i, k)
  {
    var start := i + |p|;
    assert Prefixes(k)[0] == p || Prefixes(k)[1] == p;
    var v := s[start..start + WordRun(s, start)];
    assert v[0] == s[start];
    UrlMatch(i, k, p, v)
  }

  /** Tries the alternatives `ks` in order at index `i`; the first that matches wins. */
  function TryAlternatives(s: string, i: nat, ks: seq<Kind>): (r: Option<UrlMatch>)
    ensures r.Some? ==> r.value.index == i && r.value.kind in ks && IsMatchIn(s, r.value)
    ensures r.Some? ==> Matches(s, i, r.value.kind)
    ensures r.None? <==> forall j :: 0 <= j < |ks| ==> !Matches(s, i, ks[j])
    ensures r.Some? ==> forall j :: 0 <= j < |ks| && ks[j] != r.value.kind ==> !Matches(s, i, ks[j])
  {
    if ks == [] then None
    else
      match FirstPrefixAt(s, i, Prefixes(ks[0]))
      case Some(p) =>
        var m := Capture(s, i, ks[0], p);
        OnlyKindAt(s, i, ks[0]);
        Some(m)
      case None => TryAlternatives(s, i, ks[1..])
  }

  /** The regular expression's attempt at one start index. */
  function MatchAt(s: string, i: nat): Option<UrlMatch> {
    TryAlternatives(s, i, Alternatives)
  }

  /** The scan of `match`: start indices are tried left to right from `i`. */
  function FirstMatchFrom(s: string, i: nat): (r: Option<UrlMatch>)
    requires i <= |s|
    decreases |s| - i
    ensures r.None? <==> NoMatchBetween(s, i, |s| + 1)
    ensures r.Some? ==> i <= r.value.index && IsMatchIn(s, r.value)
    ensures r.Some? ==> Matches(s, r.value.index, r.value.kind)
    ensures r.Some? ==> NoMatchBetween(s, i, r.value.index)
  {
    match MatchAt(s, i)
    case Some(m) => Some(m)
    case None =>
      AllKindsFail(s, i);
      if i == |s| then None else FirstMatchFrom(s, i + 1)
  }

  /** Every kind is one of the four alternatives tried. */
  lemma AllKindsFail(s: string, i: nat)
    requires MatchAt(s, i).None?
    ensures forall k :: !Matches(s, i, k)
  {
    forall k ensures !Matches(s, i, k) {
      assert Alternatives[if k == Quiz then 0 else if k == Dial then 1 else if k == Content then 2 else 3] == k;
    }
  }

  /** Second character of every prefix of `k` (all prefixes begin with '/'). */
  function Leads(k: Kind): set<char> {
    match k
    case Quiz => {'r'}
    case Dial => {'d', 'Q'}
    case Content => {'p'}
    case Course => {'e', 'l'}
  }

  /** Every match starts with '/', and the alternative is told apart by the
      character after it. */
  lemma MatchFixesLead(s: string, i: int, k: Kind)
    requires Matches(s, i, k)
    ensures 0 <= i && i + 1 < |s| && s[i] == '/' && s[i + 1] in Leads(k)
  {
    var j :| 0 <= j < |Prefixes(k)| && PrefixThenWord(s, i, Prefixes(k)[j]);
    var p := Prefixes(k)[j];
    assert s[i..i + |p|][0] == s[i];
    assert s[i..i + |p|][1] == s[i + 1];
  }

  /** At one start index at most one alternative can match, so the order of the
      alternatives never decides between two of them: only the start index does. */
  lemma AlternativesExclusive(s: string, i: int, k1: Kind, k2: Kind)
    requires Matches(s, i, k1) && Matches(s, i, k2)
    ensures k1 == k2
  {
    MatchFixesLead(s, i, k1);
    MatchFixesLead(s, i, k2);
  }

  /** `url.match(pattern)`: the leftmost match, or None when no alternative matches
      anywhere. The group captures the maximal word run after the prefix. */
  function Classify(url: string): (r: Option<UrlMatch>)
    ensures r.None? <==> NoMatchBetween(url, 0, |url| + 1)
    ensures r.Some? ==> IsMatchIn(url, r.value) && Matches(url, r.value.index, r.value.kind)
    ensures r.Some? ==> NoMatchBetween(url, 0, r.value.index)
    ensures r.Some? ==> forall k :: Matches(url, r.value.index, k) ==> k == r.value.kind
  {
    var r := FirstMatchFrom(url, 0);
    if r.Some? then OnlyKindAt(url, r.value.index, r.value.kind); r else r
  }

  lemma OnlyKindAt(s: string, i: int, k: Kind)
    requires Matches(s, i, k)
    ensures forall k' :: Matches(s, i, k') ==> k' == k
  {
    forall k' | Matches(s, i, k') ensures k' == k {
      AlternativesExclusive(s, i, k', k);
    }
  }

  /** The `groups` object of a match: one property per named group, `undefined`
      (None) for the groups of the alternatives that did not take part. */
  datatype Groups = Groups(quizId: Option<string>, dialCode: Option<string>,
                           contentId: Option<string>, courseId: Option<string>)
  {
    /** The property named after alternative `k`. */
    function Group(k: Kind): Option<string> {
      match k
      case Quiz => quizId
      case Dial => dialCode
      case Content => contentId
      case Course => courseId
    }

    /** How many of the four properties are defined. */
    function DefinedCount(): nat {
      (if quizId.Some? then 1 else 0) + (if dialCode.Some? then 1 else 0)
      + (if contentId.Some? then 1 else 0) + (if courseId.Some? then 1 else 0)
    }
  }

  /** The groups of a match: exactly the group of the matched alternative is
      defined, and it holds the captured text. */
  function GroupsOf(m: UrlMatch): (g: Groups)
    ensures g.DefinedCount() == 1
    ensures g.Group(m.kind) == Some(m.value)
    ensures forall k :: k != m.kind ==> g.Group(k).None?
  {
    match m.kind
    case Quiz => Groups(Some(m.value), None, None, None)
    case Dial => Groups(None, Some(m.value), None, None)
    case Content => Groups(None, None, Some(m.value), None)
    case Course => Groups(None, None, None, Some(m.value))
  }

  /** Two prefixes of one alternative never both occur at the same index. */
  lemma PrefixesOfKindDisjoint(s: string, i: int, k: Kind, p: string, q: string)
    requires p in Prefixes(k) && q in Prefixes(k)
    requires OccursAt(s, i, p) && OccursAt(s, i, q)
    ensures p == q
  {
    var d := if k == Content then 8 else 1;
    assert d < |p| && d < |q|;
    assert s[i + d] == p[d] && s[i + d] == q[d];
  }

  /** The captured group is determined: at one start there is one maximal word run. */
  lemma MaximalWordRunUnique(s: string, start: int, v: string, w: string)
    requires MaximalWordRun(s, start, v) && MaximalWordRun(s, start, w)
    ensures v == w
  {
    assert forall n :: 0 <= n < |w| ==> s[start + n] == w[n];
    assert forall n :: 0 <= n < |v| ==> s[start + n] == v[n];
  }

  /** An alternative that matches at `i` with no match anywhere before it is
      what `Classify` returns. */
  lemma LeftmostMatchWins(s: string, i: int, k: Kind)
    requires Matches(s, i, k) && NoMatchBetween(s, 0, i)
    ensures Classify(s).Some? && Classify(s).value.index == i && Classify(s).value.kind == k
  {
    var r := Classify(s);
    assert !NoMatchBetween(s, 0, |s| + 1) by {
      MatchFixesLead(s, i, k);
    }
    assert !(r.value.index < i);
    assert !(i < r.value.index);
  }

  /** A match with no match anywhere before it is exactly what `Classify`
      returns: its start, its alternative, its prefix and its group. */
  lemma ClassifyAt(s: string, i: nat, m: UrlMatch)
    requires m.index == i && IsMatchIn(s, m) && Matches(s, i, m.kind)
    requires NoMatchBetween(s, 0, i)
    ensures Classify(s) == Some(m)
  {
    LeftmostMatchWins(s, i, m.kind);
    var r := Classify(s);
    PrefixesOfKindDisjoint(s, i, m.kind, m.prefix, r.value.prefix);
    MaximalWordRunUnique(s, m.GroupStart(), m.value, r.value.value);
  }

  /** The shape `prefix + id + rest` after `lead`: alternative `k` matches at the
      end of `lead` and the word run after the prefix is exactly `id`. */
  lemma ShapeAt(lead: string, k: Kind, j: nat, id: string, rest: string)
    requires j < |Prefixes(k)|
    requires |id| > 0 && forall n :: 0 <= n < |id| ==> IsWordChar(id[n])
    requires rest == [] || !IsWordChar(rest[0])
    ensures Matches(lead + Prefixes(k)[j] + id + rest, |lead|, k)
    ensures OccursAt(lead + Prefixes(k)[j] + id + rest, |lead|, Prefixes(k)[j])
    ensures MaximalWordRun(lead + Prefixes(k)[j] + id + rest, |lead| + |Prefixes(k)[j]|, id)
  {
    var p := Prefixes(k)[j];
    var s := lead + p + id + rest;
    var g := |lead| + |p|;
    assert s[|lead|..g] == p;
    assert s[g..g + |id|] == id;
    assert PrefixThenWord(s, |lead|, p);
    if rest != [] {
      assert s[g + |id|] == rest[0];
    }
  }

  /** A link of one of the four shapes after leading text in which no match
      starts (a scheme and host, say) classifies as that shape at the end of
      the leading text and captures exactly `id`. */
  lemma ClassifyAfterLead(lead: string, k: Kind, j: nat, id: string, rest: string)
    requires j < |Prefixes(k)|
    requires |id| > 0 && forall n :: 0 <= n < |id| ==> IsWordChar(id[n])
    requires rest == [] || !IsWordChar(rest[0])
    requires NoMatchBetween(lead + Prefixes(k)[j] + id + rest, 0, |lead|)
    ensures Classify(lead + Prefixes(k)[j] + id + rest)
            == Some(UrlMatch(|lead|, k, Prefixes(k)[j], id))
  {
    ShapeAt(lead, k, j, id, rest);
    ClassifyAt(lead + Prefixes(k)[j] + id + rest, |lead|, UrlMatch(|lead|, k, Prefixes(k)[j], id));
  }

  /** Every link of one of the four shapes, `prefix + id` optionally followed by
      text that does not continue the identifier, classifies as that shape and
      captures exactly `id`. */
  lemma ClassifyShape(k: Kind, j: nat, id: string, rest: string)
    requires j < |Prefixes(k)|
    requires |id| > 0 && forall n :: 0 <= n < |id| ==> IsWordChar(id[n])
    requires rest == [] || !IsWordChar(rest[0])
    ensures Classify(Prefixes(k)[j] + id + rest) == Some(UrlMatch(0, k, Prefixes(k)[j], id))
  {
    var p := Prefixes(k)[j];
    assert [] + p == p;
    ClassifyAfterLead([], k, j, id, rest);
  }

  /** Leading text that does not end in '/' and in which no '/' is followed by
      the second character of any prefix starts no match, whatever follows it. */
  lemma NoMatchInLead(lead: string, tail: string)
    requires |lead| > 0 && lead[|lead| - 1] != '/'
    requires forall i :: 0 <= i < |lead| - 1 && lead[i] == '/'
               ==> lead[i + 1] !in Leads(Quiz) + Leads(Dial) + Leads(Content) + Leads(Course)
    ensures NoMatchBetween(lead + tail, 0, |lead|)
  {
    var s := lead + tail;
    forall i, k | 0 <= i < |lead| ensures !Matches(s, i, k) {
      if Matches(s, i, k) {
        MatchFixesLead(s, i, k);
      }
    }
  }

  /** A full deeplink with scheme and host: nothing in the host part starts a
      match, so the dial shape after it is found with its code. */
  lemma HostDialLinkClassifies(code: string)
    requires |code| > 0 && forall n :: 0 <= n < |code| ==> IsWordChar(code[n])
    ensures Classify("https://sunbird.org" + "/dial/" + code) == Some(UrlMatch(19, Dial, "/dial/", code))
  {
    var lead := "https://sunbird.org";
    var s := lead + Prefixes(Dial)[0] + code + [];
    assert NoMatchBetween(s, 0, |lead|) by {
      assert forall i :: 0 <= i < |lead| - 1 && lead[i] == '/' ==> i == 6 || i == 7;
      NoMatchInLead(lead, Prefixes(Dial)[0] + code + []);
      assert lead + (Prefixes(Dial)[0] + code + []) == s;
    }
    ClassifyAfterLead(lead, Dial, 0, code, []);
    assert s == lead + "/dial/" + code;
  }

  /** A quiz link also has the content shape inside it (`/play/content/...` at
      index 10), yet it classifies as a quiz because the quiz alternative starts
      further left. */
  lemma QuizLinkWinsByPosition(id: string)
    requires |id| > 0 && forall n :: 0 <= n < |id| ==> IsWordChar(id[n])
    ensures Matches("/resources/play/content/" + id, 10, Content)
    ensures Classify("/resources/play/content/" + id)
            == Some(UrlMatch(0, Quiz, "/resources/play/content/", id))
  {
    var s := "/resources/play/content/" + id;
    assert s[10..24] == Prefixes(Content)[0];
    assert PrefixThenWord(s, 10, Prefixes(Content)[0]);
    ClassifyShape(Quiz, 0, id, []);
    assert s == Prefixes(Quiz)[0] + id + [];
  }

  /** When the content shape starts first, content wins even though the quiz
      alternative is listed first and matches later in the same string. */
  lemma LeftmostBeatsAlternativeOrder(a: string, b: string)
    requires |a| > 0 && forall n :: 0 <= n < |a| ==> IsWordChar(a[n])
    requires |b| > 0 && forall n :: 0 <= n < |b| ==> IsWordChar(b[n])
    ensures Matches("/play/content/" + a + "/resources/play/content/" + b, 14 + |a|, Quiz)
    ensures Classify("/play/content/" + a + "/resources/play/content/" + b)
            == Some(UrlMatch(0, Content, "/play/content/", a))
  {
    var q := "/resources/play/content/";
    var s := "/play/content/" + a + q + b;
    var i := 14 + |a|;
    assert s[i..i + |q|] == q;
    assert s[i + |q|] == b[0];
    assert PrefixThenWord(s, i, Prefixes(Quiz)[0]);
    ClassifyShape(Content, 0, a, q + b);
    assert s == Prefixes(Content)[0] + a + (q + b);
  }

  /** A prefix with nothing word-like after it is not a match, and the matcher
      is case-sensitive: `/qr/` is not the dial shape. */
  lemma NearMissesDoNotMatch()
    ensures Classify("/play/content/") == None
    ensures Classify("/qr/X") == None
  {
    var s := "/play/content/";
    forall i, k | 0 <= i < |s| + 1 ensures !Matches(s, i, k) {
      if Matches(s, i, k) { MatchFixesLead(s, i, k); }
    }
    var t := "/qr/X";
    forall i, k | 0 <= i < |t| + 1 ensures !Matches(t, i, k) {
      if Matches(t, i, k) { MatchFixesLead(t, i, k); }
    }
  }
}
