/** The names and descriptions the provider gives its VMs, and reads its ownership back from. */
module VmNames {
  import opened Text

  predicate IsAlphanumeric(c: char) {
    'a' <= c <= 'z' || 'A' <= c <= 'Z' || '0' <= c <= '9'
  }

  // ----- The string operations of the code

  /** `vmNameSafeRe.ReplaceAllString(s, "_")`. */
  function Sanitize(s: string): (r: string)
    ensures |r| == |s|
  {
    if s == "" then ""
    else [if IsAlphanumeric(s[0]) || s[0] == '_' then s[0] else '_'] + Sanitize(s[1..])
  }

  /** `strings.ReplaceAll(s, "-", "_")`. */
  function Underscored(s: string): (r: string)
    ensures |r| == |s|
    ensures forall i :: 0 <= i < |s| ==> r[i] == if s[i] == '-' then '_' else s[i]
  {
    if s == "" then "" else [if s[0] == '-' then '_' else s[0]] + Underscored(s[1..])
  }

  /** `strings.Contains(s, "__")`. */
  predicate HasDouble(s: string) {
    |s| >= 2 && ((s[0] == '_' && s[1] == '_') || HasDouble(s[1..]))
  }

  /** `strings.ReplaceAll(s, "__", "_")`: occurrences from the left, not overlapping. */
  function ReplaceDoubles(s: string): (r: string)
    ensures |r| <= |s|
  {
    if |s| < 2 then s
    else if s[0] == '_' && s[1] == '_' then "_" + ReplaceDoubles(s[2..])
    else [s[0]] + ReplaceDoubles(s[1..])
  }

  /** `strings.TrimSuffix(s, "_")`. */
  function TrimUnderscore(s: string): string {
    if s != "" && s[|s| - 1] == '_' then s[..|s| - 1] else s
  }

  // ----- What the name means

  /** The words of `c` followed by text with words `ws`; `joins` when that text starts inside a word. */
  function Glue(c: char, joins: bool, ws: seq<string>): seq<string>
    requires joins ==> ws != []
  {
    if c == '_' then ws
    else if joins then [[c] + ws[0]] + ws[1..]
    else [[c]] + ws
  }

  /** The maximal runs of characters other than underscores. */
  function Words(s: string): (ws: seq<string>)
    ensures s != "" && s[0] != '_' ==> ws != []
  {
    if s == "" then [] else Glue(s[0], |s| >= 2 && s[1] != '_', Words(s[1..]))
  }

  function Join(ws: seq<string>): string {
    if ws == [] then ""
    else if |ws| == 1 then ws[0]
    else ws[0] + "_" + Join(ws[1..])
  }

  /** The alphanumeric runs of an identifier. */
  function IdWords(id: string): seq<string> {
    Words(Sanitize(id))
  }

  /** The name of the VM of a request: its alphanumeric runs, after the provider's, after "omni". */
  function VmName(providerID: string, requestID: string): string {
    Join(["omni"] + IdWords(providerID) + IdWords(requestID))
  }

  predicate IsWord(w: string) {
    w != "" && '_' !in w
  }

  lemma {:induction false} WordsAreWords(s: string)
    ensures forall w :: w in Words(s) ==> IsWord(w)
  {
    if s == "" {
    } else {
      WordsAreWords(s[1..]);
      var ws := Words(s[1..]);
      if |s| >= 2 && s[0] != '_' && s[1] != '_' {
        var first := [s[0]] + ws[0];
        assert ws[0] in ws && forall i :: 0 < i < |first| ==> first[i] in ws[0];
        assert forall w :: w in Words(s) ==> w == first || w in ws;
      } else if s[0] != '_' {
        assert IsWord([s[0]]);
        assert forall w :: w in Words(s) ==> w == [s[0]] || w in ws;
      }
    }
  }

  lemma {:induction false} WordsOfWord(w: string)
    requires IsWord(w)
    ensures Words(w) == [w]
  {
    assert w[0] in w && w == [w[0]] + w[1..];
    if |w| == 1 {
      assert w[1..] == "" && [w[0]] == w;
      assert Words(w) == [[w[0]]] + Words(w[1..]);
    } else {
      assert w[1] in w;
      WordsOfWord(w[1..]);
    }
  }

  lemma GlueConcat(c: char, joins: bool, u: seq<string>, v: seq<string>)
    requires joins ==> u != []
    ensures Glue(c, joins, u + v) == Glue(c, joins, u) + v
  {
    if joins {
      assert (u + v)[0] == u[0] && (u + v)[1..] == u[1..] + v;
    } else {
      assert [[c]] + (u + v) == [[c]] + u + v;
    }
  }

  lemma {:induction false} WordsConcat(a: string, b: string)
    ensures Words(a + ['_'] + b) == Words(a) + Words(b)
  {
    var s := a + ['_'] + b;
    if a == "" {
      assert s[1..] == b;
    } else {
      assert s[1..] == a[1..] + ['_'] + b;
      WordsConcat(a[1..], b);
      GlueConcat(a[0], |a| >= 2 && a[1] != '_', Words(a[1..]), Words(b));
    }
  }

  /** Joining words with single underscores loses nothing. */
  lemma {:induction false} WordsOfJoin(ws: seq<string>)
    requires forall w :: w in ws ==> IsWord(w)
    ensures Words(Join(ws)) == ws
  {
    if |ws| == 1 {
      WordsOfWord(ws[0]);
    } else if |ws| > 1 {
      WordsOfWord(ws[0]);
      WordsOfJoin(ws[1..]);
      WordsConcat(ws[0], Join(ws[1..]));
    }
  }

  // ----- The replace loop

  lemma {:induction false} ReplaceShortens(s: string)
    requires HasDouble(s)
    ensures |ReplaceDoubles(s)| < |s|
  {
    if !(s[0] == '_' && s[1] == '_') {
      ReplaceShortens(s[1..]);
    }
  }

  /** One round of replacing keeps the words and the first character. */
  lemma {:induction false} ReplaceKeepsWords(s: string)
    ensures Words(ReplaceDoubles(s)) == Words(s)
    ensures s != "" ==> ReplaceDoubles(s) != "" && ReplaceDoubles(s)[0] == s[0]
  {
    if |s| >= 2 {
      var r := ReplaceDoubles(s);
      if s[0] == '_' && s[1] == '_' {
        ReplaceKeepsWords(s[2..]);
        assert r[1..] == ReplaceDoubles(s[2..]);
        assert s[1..][1..] == s[2..];
      } else {
        ReplaceKeepsWords(s[1..]);
        assert r[1..] == ReplaceDoubles(s[1..]);
      }
    }
  }

  /** Without doubled underscores and with no leading one, trimming leaves exactly the joined words. */
  lemma {:induction false} SingleUnderscoresJoin(s: string)
    requires !HasDouble(s) && s != "" && s[0] != '_'
    ensures TrimUnderscore(s) == Join(Words(s))
  {
    if |s| >= 2 {
      if s[1] != '_' {
        SingleUnderscoresJoin(s[1..]);
        assert s == [s[0]] + s[1..];
        JoinPrepend(s[0], Words(s[1..]));
        TrimPrepend([s[0]], s[1..]);
      } else if |s| == 2 {
        assert s[1..] == "_";
        assert TrimUnderscore(s) == [s[0]];
      } else {
        assert s[1..][1..] == s[2..] && HasDouble(s[1..]) == HasDouble(s[2..]) && s[2] != '_';
        SingleUnderscoresJoin(s[2..]);
        assert s == [s[0]] + "_" + s[2..];
        TrimPrepend([s[0]] + "_", s[2..]);
        assert Words(s[1..]) == Words(s[2..]);
      }
    }
  }

  lemma TrimPrepend(a: string, b: string)
    requires b != ""
    ensures TrimUnderscore(a + b) == a + TrimUnderscore(b)
  {
  }

  lemma JoinPrepend(c: char, ws: seq<string>)
    requires ws != []
    ensures Join([[c] + ws[0]] + ws[1..]) == [c] + Join(ws)
  {
    var vs := [[c] + ws[0]] + ws[1..];
    assert vs[1..] == ws[1..];
  }

  lemma {:induction false} SanitizeUnderscored(s: string)
    ensures Sanitize(Underscored(s)) == Sanitize(s)
  {
    if s == "" {
    } else {
      var u := Underscored(s);
      assert u[1..] == Underscored(s[1..]);
      SanitizeUnderscored(s[1..]);
    }
  }

  /** The words of the concatenation the loop starts from. */
  lemma WordsOfPrefixed(o: string, p: string, r: string)
    requires IsWord(o)
    ensures Words(o + "_" + p + "_" + r) == [o] + Words(p) + Words(r)
  {
    WordsOfWord(o);
    WordsConcat(o + "_" + p, r);
    WordsConcat(o, p);
  }

  /** The code: sanitize, concatenate, replace doubled underscores until none is left, trim. */
  method BuildVMName(providerID: string, requestID: string) returns (name: string)
    ensures name == VmName(providerID, requestID)
  {
    var p := Sanitize(providerID);
    var r := Underscored(requestID);
    r := Sanitize(r);
    SanitizeUnderscored(requestID);
    name := "omni_" + p + "_" + r;
    assert "omni" + "_" == "omni_";
    WordsOfPrefixed("omni", p, r);
    while HasDouble(name)
      invariant name != "" && name[0] == 'o'
      invariant Words(name) == ["omni"] + Words(p) + Words(r)
      decreases |name|
    {
      ReplaceShortens(name);
      ReplaceKeepsWords(name);
      name := ReplaceDoubles(name);
    }
    SingleUnderscoresJoin(name);
    name := TrimUnderscore(name);
  }

  lemma {:induction false} PlainIsSanitized(s: string)
    requires forall c :: c in s ==> 'a' <= c <= 'z' || 'A' <= c <= 'Z' || '0' <= c <= '9'
    ensures Sanitize(s) == s
  {
    if s == "" {
    } else {
      assert s[0] in s && s == [s[0]] + s[1..];
      assert forall c :: c in s[1..] ==> c in s;
      PlainIsSanitized(s[1..]);
    }
  }

  /** Identifiers of letters and digits only appear in the name as they are, the provider's first. */
  lemma PlainName(p: string, r: string)
    requires p != "" && (forall c :: c in p ==> 'a' <= c <= 'z' || 'A' <= c <= 'Z' || '0' <= c <= '9')
    requires r != "" && (forall c :: c in r ==> 'a' <= c <= 'z' || 'A' <= c <= 'Z' || '0' <= c <= '9')
    ensures VmName(p, r) == "omni" + "_" + (p + "_" + r)
  {
    PlainIsSanitized(p);
    PlainIsSanitized(r);
    WordsOfWord(p);
    WordsOfWord(r);
    var ws := ["omni"] + [p] + [r];
    assert ws[1..] == [p, r] && ws[1..][1..] == [r];
    assert Join(ws[1..]) == p + "_" + r;
  }

  /** A character of the name may stand in an identifier's place or between two. */
  predicate IsNameChar(c: char) {
    'a' <= c <= 'z' || 'A' <= c <= 'Z' || '0' <= c <= '9' || c == '_'
  }

  lemma {:induction false} SanitizedIsPlain(s: string)
    ensures forall c :: c in Sanitize(s) ==> IsNameChar(c)
  {
    if s == "" {
    } else {
      SanitizedIsPlain(s[1..]);
      assert forall c :: c in Sanitize(s) ==> c == Sanitize(s)[0] || c in Sanitize(s[1..]);
    }
  }

  lemma {:induction false} WordsOfPlain(s: string)
    requires forall c :: c in s ==> IsNameChar(c)
    ensures forall w, c :: w in Words(s) && c in w ==> IsNameChar(c)
  {
    if s == "" {
    } else {
      assert s[0] in s && forall c :: c in s[1..] ==> c in s;
      WordsOfPlain(s[1..]);
      var ws := Words(s[1..]);
      if |s| >= 2 && s[0] != '_' && s[1] != '_' {
        var first := [s[0]] + ws[0];
        assert ws[0] in ws && forall c :: c in first ==> c == s[0] || c in ws[0];
        assert forall w :: w in Words(s) ==> w == first || w in ws;
      } else if s[0] != '_' {
        assert forall w :: w in Words(s) ==> w == [s[0]] || w in ws;
      }
    }
  }

  lemma {:induction false} JoinOfPlain(ws: seq<string>)
    requires forall w, c :: w in ws && c in w ==> IsNameChar(c)
    ensures forall c :: c in Join(ws) ==> IsNameChar(c)
  {
    if |ws| == 1 {
      assert ws[0] in ws;
    } else if |ws| > 1 {
      assert ws[0] in ws && forall w :: w in ws[1..] ==> w in ws;
      JoinOfPlain(ws[1..]);
      assert forall c :: c in Join(ws) ==> c in ws[0] || c == '_' || c in Join(ws[1..]);
    }
  }

  /** Whatever the identifiers are, the name is made of letters, digits and underscores. */
  lemma NameIsPlain(p: string, r: string)
    ensures forall c :: c in VmName(p, r) ==> IsNameChar(c)
  {
    SanitizedIsPlain(p);
    SanitizedIsPlain(r);
    WordsOfPlain(Sanitize(p));
    WordsOfPlain(Sanitize(r));
    var ws := ["omni"] + IdWords(p) + IdWords(r);
    assert forall w :: w in ws ==> w == "omni" || w in IdWords(p) || w in IdWords(r);
    JoinOfPlain(ws);
  }

  // ----- Who shares a name

  /** Two requests, of any providers, get the same VM name exactly when their provider and request words
      concatenate to the same list. */
  lemma NamesCollideIff(p: string, r: string, q: string, t: string)
    ensures VmName(p, r) == VmName(q, t) <==> IdWords(p) + IdWords(r) == IdWords(q) + IdWords(t)
  {
    WordsOfVmName(p, r);
    WordsOfVmName(q, t);
    PrefixCancels("omni", IdWords(p), IdWords(r), IdWords(q), IdWords(t));
  }

  lemma PrefixCancels(o: string, a: seq<string>, b: seq<string>, c: seq<string>, d: seq<string>)
    ensures [o] + a + b == [o] + c + d <==> a + b == c + d
  {
    assert [o] + a + b == [o] + (a + b) && [o] + c + d == [o] + (c + d);
    assert ([o] + (a + b))[1..] == a + b && ([o] + (c + d))[1..] == c + d;
  }

  lemma WordsOfVmName(p: string, r: string)
    ensures Words(VmName(p, r)) == ["omni"] + IdWords(p) + IdWords(r)
  {
    WordsAreWords(Sanitize(p));
    WordsAreWords(Sanitize(r));
    WordsOfJoin(["omni"] + IdWords(p) + IdWords(r));
  }

  /** Within one provider the name identifies the request up to punctuation. */
  lemma NamesWithinProvider(p: string, r: string, t: string)
    ensures VmName(p, r) == VmName(p, t) <==> IdWords(r) == IdWords(t)
  {
    NamesCollideIff(p, r, p, t);
    assert (IdWords(p) + IdWords(r))[|IdWords(p)|..] == IdWords(r);
    assert (IdWords(p) + IdWords(t))[|IdWords(p)|..] == IdWords(t);
  }

  lemma {:induction false} SanitizeConcat(a: string, b: string)
    ensures Sanitize(a + b) == Sanitize(a) + Sanitize(b)
  {
    if a == "" {
      assert a + b == b;
    } else {
      assert (a + b)[1..] == a[1..] + b;
      SanitizeConcat(a[1..], b);
    }
  }

  /** Any other character separates words. */
  lemma WordsAround(a: string, c: char, b: string)
    requires !IsAlphanumeric(c)
    ensures IdWords(a + [c] + b) == IdWords(a) + IdWords(b)
  {
    SanitizeConcat(a + [c], b);
    SanitizeConcat(a, [c]);
    assert Sanitize([c]) == "_";
    WordsConcat(Sanitize(a), Sanitize(b));
  }

  /** The provider prefix does not keep two providers on one host apart: provider a serving request b-c and
      provider a-b serving request c use one VM name, whatever a, b and c are. */
  lemma ProvidersCanCollide(a: string, b: string, c: string)
    ensures VmName(a, b + ['-'] + c) == VmName(a + ['-'] + b, c)
  {
    WordsAround(a, '-', b);
    WordsAround(b, '-', c);
    NamesCollideIff(a, b + ['-'] + c, a + ['-'] + b, c);
  }

  // ----- Recognising VMs

  predicate IsOmniVMName(name: string) {
    "omni_" <= name
  }

  predicate HasAlphanumeric(s: string) {
    exists i :: 0 <= i < |s| && IsAlphanumeric(s[i])
  }

  lemma {:induction false} IdWordsEmptyIff(s: string)
    ensures IdWords(s) == [] <==> !HasAlphanumeric(s)
  {
    if s == "" {
    } else {
      IdWordsEmptyIff(s[1..]);
      var t := Sanitize(s);
      assert t[1..] == Sanitize(s[1..]);
      if HasAlphanumeric(s[1..]) {
        var i :| 0 <= i < |s[1..]| && IsAlphanumeric(s[1..][i]);
        assert IsAlphanumeric(s[i + 1]);
      }
      if HasAlphanumeric(s) && !IsAlphanumeric(s[0]) {
        var i :| 0 <= i < |s| && IsAlphanumeric(s[i]);
        assert IsAlphanumeric(s[1..][i - 1]);
      }
    }
  }

  /** A built name is recognised exactly when the identifiers have an alphanumeric character at all. */
  lemma BuiltNameRecognisedIff(p: string, r: string)
    ensures IsOmniVMName(VmName(p, r)) <==> HasAlphanumeric(p) || HasAlphanumeric(r)
  {
    IdWordsEmptyIff(p);
    IdWordsEmptyIff(r);
    var ws := ["omni"] + IdWords(p) + IdWords(r);
    if |ws| == 1 {
      assert ws == ["omni"];
    } else {
      assert Join(ws) == "omni" + "_" + Join(ws[1..]);
      assert Join(ws)[..5] == "omni_";
    }
  }

  // ----- Descriptions

  const PREFIX := "Managed by Omni infra provider"
  const MARKER := "(request-id: "

  function OmniVMDescription(requestID: string): string {
    PREFIX + " " + MARKER + (requestID + [')'])
  }

  predicate IsOmniManaged(description: string) {
    PREFIX <= description
  }

  /** `strings.Index(s, sub)` for a non-empty `sub`. */
  function Index(s: string, sub: string): (i: int)
    ensures i == -1 || (0 <= i && i + |sub| <= |s| && s[i..i + |sub|] == sub)
  {
    if sub <= s then 0
    else if s == "" || Index(s[1..], sub) == -1 then -1
    else 1 + Index(s[1..], sub)
  }

  /** The text between the first `marker` and the next closing parenthesis. */
  function Between(s: string, marker: string): string {
    var i := Index(s, marker);
    if i < 0 then ""
    else
      var rest := s[i + |marker|..];
      var j := IndexOf(rest, ')');
      if j < 0 then "" else rest[..j]
  }

  function ParseRequestIDFromDescription(description: string): string {
    Between(description, MARKER)
  }

  lemma {:induction false} IndexAfter(a: string, sub: string, b: string)
    requires sub != "" && sub[0] !in a
    ensures Index(a + sub + b, sub) == |a|
  {
    var s := a + sub + b;
    if a == "" {
      assert s[..|sub|] == sub;
    } else {
      assert s[0] == a[0] && a[0] in a;
      assert s[1..] == a[1..] + sub + b;
      IndexAfter(a[1..], sub, b);
    }
  }

  lemma AfterIndex(a: string, sub: string, b: string)
    ensures (a + sub + b)[|a| + |sub|..] == b
  {
  }

  /** A text without closing parenthesis is found whole, any other up to its first one. */
  function UntilClosing(id: string): string {
    var j := IndexOf(id, ')');
    if j < 0 then id else id[..j]
  }

  /** Reading up to the first closing parenthesis of a string that one is appended to. */
  lemma UpToClosing(id: string)
    ensures var rest := id + [')']; var k := IndexOf(rest, ')'); 0 <= k && rest[..k] == UntilClosing(id)
  {
    var j := IndexOf(id, ')');
    IndexOfIsFirst(id, ')');
    if j < 0 {
      assert id + [')'] == id + [')'] + "";
      IndexOfPrefixed(id, ')', "");
    } else {
      assert id + [')'] == id[..j] + [')'] + (id[j + 1..] + [')']);
      IndexOfPrefixed(id[..j], ')', id[j + 1..] + [')']);
    }
  }

  lemma BetweenReadsBack(front: string, marker: string, id: string)
    requires marker != "" && marker[0] !in front
    ensures Between(front + marker + (id + [')']), marker) == UntilClosing(id)
  {
    IndexAfter(front, marker, id + [')']);
    AfterIndex(front, marker, id + [')']);
    UpToClosing(id);
  }

  /** What is read back is the request id up to its first closing parenthesis. */
  lemma DescriptionReadsBack(requestID: string)
    ensures IsOmniManaged(OmniVMDescription(requestID))
    ensures ParseRequestIDFromDescription(OmniVMDescription(requestID)) == UntilClosing(requestID)
  {
    assert MARKER[0] !in PREFIX + " ";
    BetweenReadsBack(PREFIX + " ", MARKER, requestID);
  }

  /** The description carries a request id faithfully exactly when the id has no closing parenthesis. */
  lemma DescriptionRoundTrip(requestID: string)
    ensures ParseRequestIDFromDescription(OmniVMDescription(requestID)) == requestID <==> ')' !in requestID
  {
    DescriptionReadsBack(requestID);
    IndexOfIsFirst(requestID, ')');
  }

  /** The marker starts at `i`, and nowhere before. */
  ghost predicate FirstAt(s: string, sub: string, i: nat) {
    i <= |s| && sub <= s[i..] && forall j :: 0 <= j < i ==> !(sub <= s[j..])
  }

  lemma {:induction false} IndexIsFirst(s: string, sub: string)
    ensures Index(s, sub) == -1 ==> forall j :: 0 <= j <= |s| ==> !(sub <= s[j..])
    ensures Index(s, sub) >= 0 ==> FirstAt(s, sub, Index(s, sub))
  {
    if sub <= s {
      assert s[0..] == s;
    } else if s == "" {
      assert s[0..] == s;
    } else {
      IndexIsFirst(s[1..], sub);
      assert s[0..] == s;
      assert forall j :: 0 < j <= |s| ==> s[j..] == s[1..][j - 1..];
    }
  }

  /** What is read from any description at all: the text between the first marker and the next closing parenthesis if
      both are there, and otherwise nothing. */
  lemma ParsedIff(description: string, id: string)
    requires id != ""
    ensures ParseRequestIDFromDescription(description) == id <==>
            exists i: nat :: FirstAt(description, "(request-id: ", i)
                             && "(request-id: " + (id + ")") <= description[i..] && ')' !in id
  {
    IndexIsFirst(description, MARKER);
    var k := Index(description, MARKER);
    if k >= 0 {
      var rest := description[k + |MARKER|..];
      IndexOfIsFirst(rest, ')');
      assert description[k..] == MARKER + rest;
      ReadsIff(rest, id);
      assert FirstAt(description, "(request-id: ", k);
      assert forall i: nat :: FirstAt(description, "(request-id: ", i) ==> i == k;
    }
  }

  lemma ReadsIff(rest: string, id: string)
    requires id != ""
    ensures (var j := IndexOf(rest, ')'); (if j < 0 then "" else rest[..j]) == id)
            <==> MARKER + (id + ")") <= MARKER + rest && ')' !in id
  {
    PrefixUnder(MARKER, id + ")", rest);
    ReadsPrefixIff(rest, id);
    hide MARKER, IndexOf;
  }

  lemma PrefixUnder(front: string, a: string, b: string)
    ensures front + a <= front + b <==> a <= b
  {
    assert (front + a)[|front|..] == a && (front + b)[|front|..] == b;
    if front + a <= front + b {
      assert (front + b)[..|front + a|] == front + a;
    }
  }

  lemma ReadsPrefixIff(rest: string, id: string)
    requires id != ""
    ensures (var j := IndexOf(rest, ')'); (if j < 0 then "" else rest[..j]) == id)
            <==> id + ")" <= rest && ')' !in id
  {
    IndexOfIsFirst(rest, ')');
    if id + ")" <= rest && ')' !in id {
      assert rest == id + [')'] + rest[|id| + 1..];
      IndexOfPrefixed(id, ')', rest[|id| + 1..]);
    }
    hide IndexOf;
  }

  /** The texts as they are stored. */
  lemma DescriptionText()
    ensures OmniVMDescription("r-1") == "Managed by Omni infra provider (request-id: r-1)"
  {
  }
}
