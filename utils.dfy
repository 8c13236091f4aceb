/** The text helpers the coaching agent is built from: the input filter, the
    golf-keyword test, the response formatter and the entity extractor.
    Python's Unicode character classes and case mapping are restricted to ASCII. */
module Utils {

  import opened Models

  // ---------------------------------------------------------------------------
  // sanitize_input: drop every character outside [\w\s.,!?]
  // ---------------------------------------------------------------------------

  /** `\w`: letters, digits and the underscore. */
  predicate IsWordChar(c: char)
  {
    ('a' <= c <= 'z') || ('A' <= c <= 'Z') || ('0' <= c <= '9') || c == '_'
  }

  /** `\s`: the ASCII characters for which Python's `str.isspace` holds. */
  predicate IsSpaceChar(c: char)
  {
    c == ' ' || ('\t' <= c <= '\r') || ('\U{1C}' <= c <= '\U{1F}')
  }

  /** The characters the filter keeps. */
  predicate Allowed(c: char)
  {
    IsWordChar(c) || IsSpaceChar(c) || c == '.' || c == ',' || c == '!' || c == '?'
  }

  predicate AllAllowed(s: string)
  {
    forall i :: 0 <= i < |s| ==> Allowed(s[i])
  }

  /** `a` can be obtained from `b` by deleting characters. */
  predicate IsSubsequence(a: string, b: string)
    decreases |b|
  {
    if a == [] then true
    else if b == [] then false
    else (a[0] == b[0] && IsSubsequence(a[1..], b[1..])) || IsSubsequence(a, b[1..])
  }

  function Sanitize(t: string): (r: string)
    ensures |r| <= |t|
    ensures AllAllowed(r)
  {
    if t == [] then []
    else (if Allowed(t[0]) then [t[0]] else []) + Sanitize(t[1..])
  }

  /** The filter works character by character, so it distributes over concatenation. */
  lemma {:induction false} SanitizeAppend(a: string, b: string)
    ensures Sanitize(a + b) == Sanitize(a) + Sanitize(b)
  {
    if a == [] {
      assert a + b == b;
    } else {
      var head := if Allowed(a[0]) then [a[0]] else [];
      assert (a + b)[0] == a[0];
      assert (a + b)[1..] == a[1..] + b;
      calc {
        Sanitize(a + b);
        head + Sanitize(a[1..] + b);
        { SanitizeAppend(a[1..], b); }
        head + (Sanitize(a[1..]) + Sanitize(b));
        (head + Sanitize(a[1..])) + Sanitize(b);
      }
    }
  }

  lemma {:induction false} SanitizeIsSubsequence(t: string)
    ensures IsSubsequence(Sanitize(t), t)
  {
    if t != [] {
      SanitizeIsSubsequence(t[1..]);
      if Allowed(t[0]) {
        assert Sanitize(t)[1..] == Sanitize(t[1..]);
      } else {
        assert Sanitize(t) == Sanitize(t[1..]);
      }
    }
  }

  /** Text made only of kept characters passes through unchanged, and only such text does. */
  lemma {:induction false} SanitizeFixedPoint(t: string)
    ensures Sanitize(t) == t <==> AllAllowed(t)
  {
    if AllAllowed(t) && t != [] {
      assert AllAllowed(t[1..]) by {
        forall i | 0 <= i < |t[1..]| ensures Allowed(t[1..][i]) {
          assert t[1..][i] == t[i + 1];
        }
      }
      SanitizeFixedPoint(t[1..]);
    }
  }

  lemma SanitizeIdempotent(t: string)
    ensures Sanitize(Sanitize(t)) == Sanitize(t)
  {
    SanitizeFixedPoint(Sanitize(t));
  }

  /** The filter removes something exactly when a disallowed character is present. */
  lemma {:induction false} SanitizeShrinks(t: string)
    ensures |Sanitize(t)| == |t| <==> AllAllowed(t)
  {
    if t != [] {
      SanitizeShrinks(t[1..]);
      if AllAllowed(t) {
        assert Allowed(t[0]);
        assert AllAllowed(t[1..]) by {
          forall i | 0 <= i < |t[1..]| ensures Allowed(t[1..][i]) {
            assert t[1..][i] == t[i + 1];
          }
        }
      } else if Allowed(t[0]) {
        var i :| 0 <= i < |t| && !Allowed(t[i]);
        assert !Allowed(t[1..][i - 1]);
      }
    }
  }

  // ---------------------------------------------------------------------------
  // is_valid_golf_input: any keyword is a substring of text.lower()
  // ---------------------------------------------------------------------------

  const GolfKeywords: seq<string> :=
    ["golf", "putt", "drive", "fairway", "green", "bunker", "hole", "par", "birdie", "bogey"]

  function ToLowerChar(c: char): char
  {
    if 'A' <= c <= 'Z' then (c as int + 32) as char else c
  }

  /** The lower-case form: equal to the input up to letter case, with no
      upper-case letter left. */
  function Lower(s: string): (r: string)
    ensures SameIgnoringCase(r, s)
    ensures forall i :: 0 <= i < |r| ==> !('A' <= r[i] <= 'Z')
  {
    seq(|s|, i requires 0 <= i < |s| => ToLowerChar(s[i]))
  }

  /** The declarative meaning of Python's `k in s` on strings. */
  ghost predicate IsSubstring(k: string, s: string)
  {
    exists i :: OccursAt(k, s, i)
  }

  ghost predicate OccursAt(k: string, s: string, i: int)
  {
    0 <= i <= |s| - |k| && s[i..i + |k|] == k
  }

  /** An occurrence is either at the front or in the tail. */
  lemma OccursFrontOrTail(s: string, k: string)
    requires |s| >= |k| && s[..|k|] != k
    ensures s != [] && (IsSubstring(k, s) <==> IsSubstring(k, s[1..]))
  {
    assert s != [];
    if IsSubstring(k, s) {
      var i :| OccursAt(k, s, i);
      assert s[1..][i - 1..i - 1 + |k|] == s[i..i + |k|];
      assert OccursAt(k, s[1..], i - 1);
    }
    if IsSubstring(k, s[1..]) {
      var i :| OccursAt(k, s[1..], i);
      assert s[i + 1..i + 1 + |k|] == s[1..][i..i + |k|];
      assert OccursAt(k, s, i + 1);
    }
  }

  /** Python's `k in s`: a left-to-right scan that holds exactly when `k`
      occurs in `s` at some position. */
  function Contains(s: string, k: string): (b: bool)
    ensures b <==> IsSubstring(k, s)
    decreases |s|
  {
    if |s| < |k| then false
    else if s[..|k|] == k then
      assert OccursAt(k, s, 0);
      true
    else
      OccursFrontOrTail(s, k);
      Contains(s[1..], k)
  }

  /** Some listed keyword occurs in the list, or in its tail. */
  lemma SomeOccursFrontOrTail(s: string, ks: seq<string>)
    requires ks != []
    ensures (exists j :: 0 <= j < |ks| && IsSubstring(ks[j], s))
        <==> IsSubstring(ks[0], s) || exists j :: 0 <= j < |ks[1..]| && IsSubstring(ks[1..][j], s)
  {
    if exists j :: 0 <= j < |ks| && IsSubstring(ks[j], s) {
      var j :| 0 <= j < |ks| && IsSubstring(ks[j], s);
      if j > 0 {
        assert ks[1..][j - 1] == ks[j];
      }
    }
  }

  /** Python's `any(k in s for k in ks)`: holds exactly when some listed
      keyword occurs in the text. */
  function AnyContains(s: string, ks: seq<string>): (b: bool)
    ensures b <==> exists j :: 0 <= j < |ks| && IsSubstring(ks[j], s)
  {
    if ks == [] then false
    else
      SomeOccursFrontOrTail(s, ks);
      Contains(s, ks[0]) || AnyContains(s, ks[1..])
  }

  /** The text is accepted exactly when one of the ten keywords occurs in its
      lower-cased form, as a plain substring. */
  function IsValidGolfInput(t: string): (b: bool)
    ensures b <==> exists k :: k in GolfKeywords && IsSubstring(k, Lower(t))
  {
    AnyContains(Lower(t), GolfKeywords)
  }

  /** Equal up to ASCII letter case. */
  predicate SameIgnoringCase(a: string, b: string)
  {
    |a| == |b| && forall i :: 0 <= i < |a| ==> ToLowerChar(a[i]) == ToLowerChar(b[i])
  }

  lemma GolfInputIgnoresCase(a: string, b: string)
    requires SameIgnoringCase(a, b)
    ensures IsValidGolfInput(a) == IsValidGolfInput(b)
  {
    assert Lower(a) == Lower(b);
  }

  lemma GolfInputRejectsEmpty()
    ensures !IsValidGolfInput("")
  {
  }

  /** The match is not on whole words: "parent" is accepted through "par". */
  lemma GolfInputMatchesInsideWords()
    ensures IsValidGolfInput("parent")
  {
    assert Lower("parent") == "parent";
    assert OccursAt("par", "parent", 0);
    KeywordOccurrenceAccepts("parent", 7, 0);
  }

  /** Every golf keyword is spelled with lower-case ASCII letters only. */
  lemma KeywordsAreLetters()
    ensures forall k, j :: k in GolfKeywords && 0 <= j < |k| ==> 'a' <= k[j] <= 'z'
  {
  }

  lemma LowerAppend(a: string, b: string)
    ensures Lower(a + b) == Lower(a) + Lower(b)
  {
  }

  /** Filtering never hides a keyword that the raw text contains: the
      characters of an occurrence are letters, which the filter keeps, and
      nothing between them is removed. */
  lemma SanitizeKeepsGolfInput(t: string)
    requires IsValidGolfInput(t)
    ensures IsValidGolfInput(Sanitize(t))
  {
    var k :| k in GolfKeywords && IsSubstring(k, Lower(t));
    var i :| OccursAt(k, Lower(t), i);
    var a, seg, b := t[..i], t[i..i + |k|], t[i + |k|..];
    assert t == a + seg + b;
    assert Lower(seg) == k;
    KeywordCharsAllowed(k, seg);
    AllowedRunSurvives(a, seg, b);
    assert IsSubstring(k, Lower(Sanitize(t)));
  }

  /** A stretch of text that lower-cases to a keyword consists of letters. */
  lemma KeywordCharsAllowed(k: string, seg: string)
    requires k in GolfKeywords && Lower(seg) == k
    ensures AllAllowed(seg)
  {
    KeywordsAreLetters();
    forall j | 0 <= j < |seg| ensures Allowed(seg[j]) {
      assert ToLowerChar(seg[j]) == k[j];
    }
  }

  /** A stretch of allowed characters appears intact in the filtered text,
      right after what is left of the text before it. */
  lemma AllowedRunSurvives(a: string, seg: string, b: string)
    requires AllAllowed(seg)
    ensures Sanitize(a + seg + b) == Sanitize(a) + seg + Sanitize(b)
    ensures OccursAt(Lower(seg), Lower(Sanitize(a + seg + b)), |Sanitize(a)|)
  {
    SanitizeFixedPoint(seg);
    SanitizeAppend(a + seg, b);
    SanitizeAppend(a, seg);
    var sa, sb := Sanitize(a), Sanitize(b);
    assert Sanitize(a + seg + b) == sa + seg + sb;
    LowerAppend(sa + seg, sb);
    LowerAppend(sa, seg);
    assert Lower(Sanitize(a + seg + b)) == Lower(sa) + Lower(seg) + Lower(sb);
  }

  /** A keyword occurrence anywhere in the lower-cased text is enough. */
  lemma KeywordOccurrenceAccepts(t: string, j: int, i: int)
    requires 0 <= j < |GolfKeywords| && OccursAt(GolfKeywords[j], Lower(t), i)
    ensures IsValidGolfInput(t)
  {
    assert IsSubstring(GolfKeywords[j], Lower(t));
  }

  lemma PuttQuestionIsGolf()
    ensures IsValidGolfInput("I need advice on my putt")
  {
    var head := "I need advice on my ";
    assert head + "putt" == "I need advice on my putt";
    LowerAppend(head, "putt");
    assert Lower("putt") == "putt";
    assert Lower(head + "putt")[20..24] == "putt";
    KeywordOccurrenceAccepts(head + "putt", 1, 20);
  }

  lemma NotSubstringMissingChar(k: string, s: string, j: int)
    requires 0 <= j < |k| && k[j] !in s
    ensures !IsSubstring(k, s)
  {
  }

  lemma ParNotInPaHashR()
    ensures !IsSubstring("par", "pa#r")
  {
    var s := "pa#r";
    assert s[0..3][2] == '#' && s[1..4][0] == 'a';
    forall i | OccursAt("par", s, i) ensures false {
    }
  }

  lemma PaHashRRejected()
    ensures !IsValidGolfInput("pa#r")
  {
    var s := "pa#r";
    assert Lower(s) == s;
    ParNotInPaHashR();
    NotSubstringMissingChar("golf", s, 0);
    NotSubstringMissingChar("putt", s, 1);
    NotSubstringMissingChar("hole", s, 0);
    forall k | k in GolfKeywords ensures !IsSubstring(k, s) {
      if |k| > |s| {
        assert !OccursAt(k, s, 0);
      }
    }
  }

  /** "I need help" passes the filter unchanged and names no golf keyword:
      each keyword has a letter that the text lacks. */
  lemma HelpRequestRejected()
    ensures Sanitize("I need help") == "I need help"
    ensures !IsValidGolfInput(Sanitize("I need help"))
  {
    HelpRequestUnfiltered();
    HelpRequestNoKeyword();
  }

  lemma HelpRequestUnfiltered()
    ensures Sanitize("I need help") == "I need help"
  {
    HelpRequestAllowed();
    SanitizeFixedPoint("I need help");
  }

  lemma HelpRequestAllowed()
    ensures AllAllowed("I need help")
  {
    var t := "I need help";
    forall i | 0 <= i < |t| ensures Allowed(t[i]) {
      assert t[i] in "I nedhlp";
    }
  }

  lemma HelpRequestNoKeyword()
    ensures !IsValidGolfInput("I need help")
  {
    var s := "i need help";
    assert Lower("I need help") == s;
    forall k | k in GolfKeywords ensures !IsSubstring(k, s) {
      var j := if k in ["putt", "drive", "hole", "par"] then 1 else 0;
      NotSubstringMissingChar(k, s, j);
    }
  }

  /** The converse of SanitizeKeepsGolfInput fails: removing a character can
      join the pieces of a keyword, so "pa#r" is rejected as written and
      accepted once filtered. */
  lemma SanitizeCanRevealKeyword()
    ensures !IsValidGolfInput("pa#r")
    ensures Sanitize("pa#r") == "par" && IsValidGolfInput(Sanitize("pa#r"))
  {
    PaHashRRejected();
    SanitizePaHashR();
    ParAccepted();
  }

  lemma ParAccepted()
    ensures IsValidGolfInput("par")
  {
    assert Lower("par") == "par";
    assert OccursAt("par", Lower("par"), 0);
    KeywordOccurrenceAccepts("par", 7, 0);
  }

  lemma SanitizePaHashR()
    ensures Sanitize("pa#r") == "par"
  {
  }

  // ---------------------------------------------------------------------------
  // format_agent_response: "<agent_type or Unknown>: <result or ''>"
  // ---------------------------------------------------------------------------

  function GetOr(m: map<string, string>, key: string, default: string): string
  {
    if key in m then m[key] else default
  }

  /** When the agent-type text has no colon, the formatted line splits back at
      its first ": " into the agent type (or its default) and the result (or
      its default). */
  function FormatAgentResponse(m: map<string, string>): (r: string)
    ensures ':' !in GetOr(m, "agent_type", "Unknown")
        ==> SplitAtSeparator(r) == Some((GetOr(m, "agent_type", "Unknown"), GetOr(m, "result", "")))
  {
    var agentType, result := GetOr(m, "agent_type", "Unknown"), GetOr(m, "result", "");
    SplitAfterColonFree(agentType, result);
    agentType + ": " + result
  }

  /** Only the two keys "agent_type" and "result" influence the text. */
  lemma FormatReadsTwoKeys(m1: map<string, string>, m2: map<string, string>)
    requires GetOr(m1, "agent_type", "Unknown") == GetOr(m2, "agent_type", "Unknown")
    requires GetOr(m1, "result", "") == GetOr(m2, "result", "")
    ensures FormatAgentResponse(m1) == FormatAgentResponse(m2)
  {
  }

  /** A mapping with neither key renders as the bare default. */
  lemma FormatWithoutKeys(m: map<string, string>)
    requires "agent_type" !in m && "result" !in m
    ensures FormatAgentResponse(m) == "Unknown: "
  {
  }

  /** Splits at the first ": ", the separator the formatter writes. */
  function SplitAtSeparator(s: string): Option<(string, string)>
    decreases |s|
  {
    if |s| < 2 then None
    else if s[..2] == ": " then Some(([], s[2..]))
    else match SplitAtSeparator(s[1..])
      case None => None
      case Some(p) => Some(([s[0]] + p.0, p.1))
  }

  lemma {:induction false} SplitAfterColonFree(a: string, b: string)
    ensures ':' !in a ==> SplitAtSeparator(a + ": " + b) == Some((a, b))
  {
    if ':' in a {
    } else if a == [] {
      assert (a + ": " + b)[..2] == ": ";
      assert (a + ": " + b)[2..] == b;
    } else {
      assert (a + ": " + b)[1..] == a[1..] + ": " + b;
      assert (a + ": " + b)[..2] != ": " by {
        assert (a + ": " + b)[0] == a[0];
      }
      assert ':' !in a[1..];
      SplitAfterColonFree(a[1..], b);
      assert [a[0]] + a[1..] == a;
    }
  }

  // ---------------------------------------------------------------------------
  // extract_key_entities: flatten the value lists in order, keep the first five
  // ---------------------------------------------------------------------------

  const MaxEntities: nat := 5

  function Min(a: nat, b: nat): nat
  {
    if a <= b then a else b
  }

  /** The value lists of an insertion-ordered mapping. */
  function Values<T>(entries: seq<(string, seq<T>)>): (vs: seq<seq<T>>)
    ensures |vs| == |entries|
    ensures forall j :: 0 <= j < |entries| ==> vs[j] == entries[j].1
  {
    seq(|entries|, j requires 0 <= j < |entries| => entries[j].1)
  }

  function Flatten<T>(xss: seq<seq<T>>): seq<T>
  {
    if xss == [] then [] else xss[0] + Flatten(xss[1..])
  }

  function TotalLength<T>(xss: seq<seq<T>>): nat
  {
    if xss == [] then 0 else |xss[0]| + TotalLength(xss[1..])
  }

  function ExtractKeyEntities<T>(ner: seq<(string, seq<T>)>): (r: seq<T>)
    ensures |r| <= MaxEntities
  {
    var all := Flatten(Values(ner));
    if |all| <= MaxEntities then all else all[..MaxEntities]
  }

  lemma {:induction false} FlattenLength<T>(xss: seq<seq<T>>)
    ensures |Flatten(xss)| == TotalLength(xss)
  {
    if xss != [] {
      FlattenLength(xss[1..]);
    }
  }

  lemma {:induction false} FlattenMember<T>(xss: seq<seq<T>>, x: T)
    ensures x in Flatten(xss) <==> exists j :: 0 <= j < |xss| && x in xss[j]
  {
    if xss != [] {
      FlattenMember(xss[1..], x);
      if exists j :: 0 <= j < |xss| && x in xss[j] {
        var j :| 0 <= j < |xss| && x in xss[j];
        if j > 0 {
          assert xss[1..][j - 1] == xss[j];
        }
      }
      if exists j :: 0 <= j < |xss[1..]| && x in xss[1..][j] {
        var j :| 0 <= j < |xss[1..]| && x in xss[1..][j];
        assert xss[j + 1] == xss[1..][j];
      }
    }
  }

  /** The extracted entities are the first min(5, total) entities of the value
      lists taken in order, and each comes from one of those lists. */
  lemma ExtractKeyEntitiesMeans<T>(ner: seq<(string, seq<T>)>)
    ensures |ExtractKeyEntities(ner)| == Min(MaxEntities, TotalLength(Values(ner)))
    ensures ExtractKeyEntities(ner) == Flatten(Values(ner))[..|ExtractKeyEntities(ner)|]
    ensures forall x :: x in ExtractKeyEntities(ner) ==> exists j :: 0 <= j < |ner| && x in ner[j].1
  {
    var all := Flatten(Values(ner));
    FlattenLength(Values(ner));
    var r := ExtractKeyEntities(ner);
    forall x | x in r ensures exists j :: 0 <= j < |ner| && x in ner[j].1 {
      assert x in all;
      FlattenMember(Values(ner), x);
      var j :| 0 <= j < |Values(ner)| && x in Values(ner)[j];
      assert x in ner[j].1;
    }
  }
}
