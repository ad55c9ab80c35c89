/**
 * The requester shown on the deployment-status page, read from a pull
 * request's description with the pattern
 * `Solicitante:.*(?:user:default\/|@)([\w-]+)` under the `i` flag.
 *
 * The pattern is written out as a scanner for exactly that pattern. A match
 * is described by `Candidate`: `Solicitante:` (any letter case) at `start`,
 * then characters that are not line terminators (the `.*`), then the marker
 * `user:default/` (any letter case) or `@` at `marker`, then at least one
 * character of `[A-Za-z0-9_-]`. The regular-expression engine reports the
 * candidate with the leftmost start and, the `.*` being greedy, the rightmost
 * marker for that start; the group is the longest run of word characters
 * after that marker.
 */
module RequesterPattern {
  import opened Wrappers
  import opened JsString
  import RequestSearch

  const Label: string := "Solicitante:"
  const RefMarker: string := "user:default/"

  /** What the page shows when no requester is found. */
  const Unknown: string := "Desconhecido"

  /** The characters `.` does not match without the `s` flag. */
  predicate IsLineTerminator(c: char)
  {
    c == '\n' || c == '\r' || c == '\U{2028}' || c == '\U{2029}'
  }

  /** `[\w-]`; without the `u` flag, `\w` stays ASCII under `i`. */
  predicate IsWordChar(c: char)
  {
    ('a' <= c <= 'z') || ('A' <= c <= 'Z') || ('0' <= c <= '9') || c == '_' || c == '-'
  }

  /**
   * Case folding under the `i` flag for the letters the pattern holds: without
   * the `u` flag no non-ASCII character folds onto an ASCII one.
   */
  function FoldCase(c: char): char
  {
    if 'A' <= c <= 'Z' then ((c as int) + 32) as char else c
  }

  /** `lit` occurs at `i` in `s`, letter case aside. */
  predicate LiteralAt(s: string, i: nat, lit: string)
  {
    i + |lit| <= |s| && forall k :: 0 <= k < |lit| ==> FoldCase(s[i + k]) == FoldCase(lit[k])
  }

  /** Where the group starts when the marker `user:default/` or `@` is at `p`. */
  function MarkerEnd(s: string, p: nat): (e: Option<nat>)
    ensures e.Some? ==> p < e.value <= |s|
  {
    if LiteralAt(s, p, RefMarker) then Some(p + |RefMarker|)
    else if p < |s| && s[p] == '@' then Some(p + 1)
    else None
  }

  /** The marker is at `p` and at least one word character follows it. */
  predicate MarkerOk(s: string, p: nat)
  {
    MarkerEnd(s, p).Some? && MarkerEnd(s, p).value < |s| && IsWordChar(s[MarkerEnd(s, p).value])
  }

  /** The pattern matches with `Solicitante:` at `start` and the marker at `marker`. */
  predicate Candidate(s: string, start: nat, marker: nat)
  {
    && LiteralAt(s, start, Label)
    && start + |Label| <= marker <= |s|
    && (forall k :: start + |Label| <= k < marker ==> !IsLineTerminator(s[k]))
    && MarkerOk(s, marker)
  }

  /** The index of the first line terminator at or after `i`, or the length of `s`. */
  function LineEnd(s: string, i: nat): (e: nat)
    requires i <= |s|
    ensures i <= e <= |s|
    ensures forall k :: i <= k < e ==> !IsLineTerminator(s[k])
    ensures e == |s| || IsLineTerminator(s[e])
    decreases |s| - i
  {
    if i == |s| || IsLineTerminator(s[i]) then i else LineEnd(s, i + 1)
  }

  /** The largest `p` in `[lo, hi)` at which a marker with a following word character sits. */
  function LastMarker(s: string, lo: nat, hi: nat): (r: Option<nat>)
    requires hi <= |s|
    ensures r.Some? ==> lo <= r.value < hi && MarkerOk(s, r.value)
    ensures r.Some? ==> forall p: nat :: r.value < p < hi ==> !MarkerOk(s, p)
    ensures r.None? ==> forall p: nat :: lo <= p < hi ==> !MarkerOk(s, p)
    decreases hi
  {
    if hi <= lo then None
    else if MarkerOk(s, hi - 1) then Some(hi - 1)
    else LastMarker(s, lo, hi - 1)
  }

  /** For a start holding `Solicitante:`, the candidate markers are the good markers before the end of its line. */
  lemma CandidatesOfStart(s: string, start: nat)
    requires LiteralAt(s, start, Label)
    ensures forall p: nat :: Candidate(s, start, p)
              <==> start + |Label| <= p < LineEnd(s, start + |Label|) && MarkerOk(s, p)
  {
    var e := LineEnd(s, start + |Label|);
    forall p: nat | Candidate(s, start, p)
      ensures p < e
    {
      var m := MarkerEnd(s, p);
      assert p < |s|;
      assert !IsLineTerminator(s[p]) by {
        if LiteralAt(s, p, RefMarker) {
          assert FoldCase(s[p + 0]) == FoldCase(RefMarker[0]);
        }
      }
    }
  }

  datatype Match = Match(start: nat, marker: nat)

  /** The match the engine finds when it tries the starts from `from` on, in order. */
  function FindFrom(s: string, from: nat): (r: Option<Match>)
    ensures r.Some? ==> from <= r.value.start && Candidate(s, r.value.start, r.value.marker)
    ensures r.Some? ==> forall st: nat, p: nat :: from <= st < r.value.start ==> !Candidate(s, st, p)
    ensures r.Some? ==> forall p: nat :: r.value.marker < p ==> !Candidate(s, r.value.start, p)
    ensures r.None? ==> forall st: nat, p: nat :: from <= st ==> !Candidate(s, st, p)
    decreases |s| - from
  {
    if from + |Label| > |s| then None
    else if !LiteralAt(s, from, Label) then FindFrom(s, from + 1)
    else
      CandidatesOfStart(s, from);
      match LastMarker(s, from + |Label|, LineEnd(s, from + |Label|))
      case Some(p) => Some(Match(from, p))
      case None => FindFrom(s, from + 1)
  }

  /**
   * `body.match(pattern)`: the candidate with the leftmost start and, for that
   * start, the rightmost marker; none when there is no candidate at all.
   */
  function RequesterMatch(s: string): (r: Option<Match>)
    ensures r.Some? ==> Candidate(s, r.value.start, r.value.marker)
    ensures r.Some? ==> forall st: nat, p: nat :: st < r.value.start ==> !Candidate(s, st, p)
    ensures r.Some? ==> forall p: nat :: r.value.marker < p ==> !Candidate(s, r.value.start, p)
    ensures r.None? <==> forall st: nat, p: nat :: !Candidate(s, st, p)
  {
    FindFrom(s, 0)
  }

  /** The length of the run of word characters that starts at `i`. */
  function WordRun(s: string, i: nat): (n: nat)
    requires i <= |s|
    ensures i + n <= |s|
    ensures forall k :: i <= k < i + n ==> IsWordChar(s[k])
    ensures i + n == |s| || !IsWordChar(s[i + n])
    decreases |s| - i
  {
    if i < |s| && IsWordChar(s[i]) then 1 + WordRun(s, i + 1) else 0
  }

  /** Group 1 for the marker at `p`: the longest non-empty run of `[A-Za-z0-9_-]` right after it. */
  function Captured(s: string, p: nat): (name: string)
    requires MarkerOk(s, p)
    ensures |name| >= 1
    ensures forall k :: 0 <= k < |name| ==> IsWordChar(name[k])
    ensures var e := MarkerEnd(s, p).value;
            e + |name| <= |s| && s[e..e + |name|] == name && (e + |name| == |s| || !IsWordChar(s[e + |name|]))
  {
    var e := MarkerEnd(s, p).value;
    s[e..e + WordRun(s, e)]
  }

  /**
   * `getSolicitanteFromDesc`: "Desconhecido" for an absent or empty body and
   * for a body the pattern does not match; otherwise the captured name.
   */
  function Requester(body: Option<string>): (name: string)
    ensures !Truthy(body) ==> name == Unknown
    ensures Truthy(body) && (forall st: nat, p: nat :: !Candidate(body.value, st, p)) ==> name == Unknown
    ensures Truthy(body) && RequesterMatch(body.value).Some? ==>
              name == Captured(body.value, RequesterMatch(body.value).value.marker)
  {
    if !Truthy(body) then Unknown
    else
      match RequesterMatch(body.value)
      case None => Unknown
      case Some(m) => Captured(body.value, m.marker)
  }

  /** How the search term is laid out: the label, a space, `@`, then the user. */
  lemma SearchTermLayout(user: string, s: string)
    requires s == RequestSearch.SearchTerm(user)
    ensures |s| == |user| + 14 && LiteralAt(s, 0, Label)
    ensures s[12] == ' ' && s[13] == '@'
    ensures forall k :: 14 <= k < |s| ==> s[k] == user[k - 14]
  {
    assert s[..14] == "Solicitante: @";
    assert s[..12] == s[..14][..12];
    assert s[..12] == Label;
    assert s[12] == s[..14][12] && s[13] == s[..14][13];
    forall k | 14 <= k < |s|
      ensures s[k] == user[k - 14]
    {
      assert s[14..][k - 14] == s[k];
    }
  }

  /** In a run of word characters and dots up to the end of the string, no marker starts. */
  lemma NoMarkerInWordTail(s: string, from: nat)
    requires from <= |s|
    requires forall k :: from <= k < |s| ==> IsWordChar(s[k]) || s[k] == '.'
    ensures forall p: nat :: from <= p ==> !MarkerOk(s, p)
  {
    forall p: nat | from <= p
      ensures !MarkerOk(s, p)
    {
      if p < |s| {
        assert s[p] != '@';
        if p + |RefMarker| <= |s| {
          assert (IsWordChar(s[p + 4]) || s[p + 4] == '.') && RefMarker[4] == ':';
          assert FoldCase(s[p + 4]) != FoldCase(RefMarker[4]);
        }
      }
    }
  }

  /**
   * For a search term whose user is made of word characters and dots, the
   * match starts at the label and its marker is the `@` that follows it.
   */
  lemma SearchTermMatch(user: string, s: string)
    requires s == RequestSearch.SearchTerm(user)
    requires |user| >= 1 && IsWordChar(user[0])
    requires forall k :: 0 <= k < |user| ==> IsWordChar(user[k]) || user[k] == '.'
    ensures |s| == |user| + 14 && RequesterMatch(s) == Some(Match(0, 13)) && MarkerEnd(s, 13) == Some(14)
    ensures forall k :: 14 <= k < |s| ==> s[k] == user[k - 14]
  {
    SearchTermLayout(user, s);
    NoMarkerInWordTail(s, 14);
    assert !LiteralAt(s, 13, RefMarker) by {
      assert RefMarker[0] == 'u' && FoldCase(s[13 + 0]) == '@';
    }
    assert MarkerEnd(s, 13) == Some(14);
    assert Candidate(s, 0, 13);
  }

  /**
   * The search term the request views look for, used as a description, names
   * its user again: the page shows the user the views searched for.
   */
  lemma {:induction false} RequesterOfSearchTerm(user: string)
    requires |user| >= 1 && forall k :: 0 <= k < |user| ==> IsWordChar(user[k])
    ensures Requester(Some(RequestSearch.SearchTerm(user))) == user
  {
    var s := RequestSearch.SearchTerm(user);
    SearchTermMatch(user, s);
    var n := WordRun(s, 14);
    assert n == |user|;
    assert s[14..14 + n] == user;
  }

  /** A run of `m` word characters followed by a non-word character or the end is the word run. */
  lemma WordRunIs(s: string, i: nat, m: nat)
    requires i + m <= |s|
    requires forall k :: i <= k < i + m ==> IsWordChar(s[k])
    requires i + m == |s| || !IsWordChar(s[i + m])
    ensures WordRun(s, i) == m
  {
  }

  /** The characters of `first + "." + rest`. */
  lemma DottedUserLayout(first: string, rest: string, user: string)
    requires user == first + "." + rest
    ensures |user| == |first| + 1 + |rest| && user[|first|] == '.'
    ensures forall k :: 0 <= k < |first| ==> user[k] == first[k]
    ensures forall k :: |first| < k < |user| ==> user[k] == rest[k - |first| - 1]
  {
  }

  /**
   * A user name with a dot is cut at the dot: `[\w-]+` stops there, so the
   * page shows only the part before it, not the user the views searched for.
   */
  lemma {:induction false} RequesterStopsAtDot(first: string, rest: string)
    requires |first| >= 1 && forall k :: 0 <= k < |first| ==> IsWordChar(first[k])
    requires forall k :: 0 <= k < |rest| ==> IsWordChar(rest[k])
    ensures Requester(Some(RequestSearch.SearchTerm(first + "." + rest))) == first
  {
    var user := first + "." + rest;
    DottedUserLayout(first, rest, user);
    forall k | 0 <= k < |user|
      ensures IsWordChar(user[k]) || user[k] == '.'
    {
      if k < |first| {
        assert user[k] == first[k];
      } else if k > |first| {
        assert user[k] == rest[k - |first| - 1];
      }
    }
    assert IsWordChar(user[0]) by {
      assert user[0] == first[0];
    }
    var s := RequestSearch.SearchTerm(user);
    SearchTermMatch(user, s);
    forall k | 14 <= k < 14 + |first|
      ensures s[k] == first[k - 14] && IsWordChar(s[k])
    {
      assert s[k] == user[k - 14];
    }
    assert s[14 + |first|] == '.';
    WordRunIs(s, 14, |first|);
    assert s[14..14 + |first|] == first;
  }
}
