/**
 * The bullet-task parser: a global scan with
 *   /(?:\*\s*|\d+\.\s*)(.*?)(?=\n|$)/g
 * collecting the trimmed first capture of every match. The regular expression is
 * modelled with JavaScript's matching order: the leftmost position wins, `\s*`
 * is greedy and gives back one character at a time, `.*?` is lazy and stops at
 * the first line terminator, `$` is the end of the input (no `m` flag), and the
 * next search resumes at the end of the previous match.
 */
module EmailParser {

  import opened Wrappers

  /** `\s`, and the characters `trim` removes: ECMAScript WhiteSpace and LineTerminator. */
  predicate IsJsSpace(c: char) {
    || c == '\t' || c == '\n' || c == '\U{000B}' || c == '\U{000C}' || c == '\r' || c == ' '
    || c == '\U{00A0}' || c == '\U{1680}' || ('\U{2000}' <= c <= '\U{200A}')
    || c == '\U{2028}' || c == '\U{2029}' || c == '\U{202F}' || c == '\U{205F}'
    || c == '\U{3000}' || c == '\U{FEFF}'
  }

  /** The characters `.` does not match. */
  predicate IsLineTerminator(c: char) {
    c == '\n' || c == '\r' || c == '\U{2028}' || c == '\U{2029}'
  }

  /** `\d`. */
  predicate IsDigit(c: char) {
    '0' <= c <= '9'
  }

  /** A character every match must consume one of: the '*' or the '.' after the digits. */
  predicate IsMarker(c: char) {
    c == '*' || c == '.'
  }

  /** A successful `exec`: `index`, where the capture starts, and where the match (and the capture) ends. */
  datatype Match = Match(start: nat, captureStart: nat, end: nat)

  // ---------------------------------------------------------------------------
  // One match attempt

  /** The length of the run of `\s` characters starting at `i`. */
  function SpaceRun(s: string, i: nat): (n: nat)
    requires i <= |s|
    ensures i + n <= |s|
    ensures forall k :: i <= k < i + n ==> IsJsSpace(s[k])
    ensures i + n < |s| ==> !IsJsSpace(s[i + n])
    decreases |s| - i
  {
    if i < |s| && IsJsSpace(s[i]) then 1 + SpaceRun(s, i + 1) else 0
  }

  /** The length of the run of digits starting at `i`. */
  function DigitRun(s: string, i: nat): (n: nat)
    requires i <= |s|
    ensures i + n <= |s|
    ensures forall k :: i <= k < i + n ==> IsDigit(s[k])
    ensures i + n < |s| ==> !IsDigit(s[i + n])
    decreases |s| - i
  {
    if i < |s| && IsDigit(s[i]) then 1 + DigitRun(s, i + 1) else 0
  }

  /** The first line terminator at or after `q`, or the end of the text: where `.*?` must stop. */
  function LineEnd(s: string, q: nat): (t: nat)
    requires q <= |s|
    ensures q <= t <= |s|
    ensures forall k :: q <= k < t ==> !IsLineTerminator(s[k])
    ensures t < |s| ==> IsLineTerminator(s[t])
    decreases |s| - q
  {
    if q == |s| || IsLineTerminator(s[q]) then q else LineEnd(s, q + 1)
  }

  /** `(?=\n|$)` at position `t`. */
  predicate LookaheadHolds(s: string, t: nat)
    requires t <= |s|
  {
    t == |s| || s[t] == '\n'
  }

  /**
   * Where `(.*?)` begins: `\s*` first takes `j` characters after `base`, and on
   * failure gives them back one at a time. The lazy `.*?` followed by the
   * lookahead succeeds from `q` exactly when the first line terminator at or
   * after `q` is a '\n' or the end of the text.
   */
  function CaptureStart(s: string, base: nat, j: nat): (q: Option<nat>)
    requires base + j <= |s|
    ensures q.Some? ==> base <= q.value <= base + j && LookaheadHolds(s, LineEnd(s, q.value))
    ensures q.Some? ==> forall i :: q.value < i <= base + j ==> !LookaheadHolds(s, LineEnd(s, i))
    ensures q.None? ==> forall i :: base <= i <= base + j ==> !LookaheadHolds(s, LineEnd(s, i))
    decreases j
  {
    if LookaheadHolds(s, LineEnd(s, base + j)) then Some(base + j)
    else if j == 0 then None
    else CaptureStart(s, base, j - 1)
  }

  /**
   * Where `\s*` begins at a match attempt from `p`: after '*', or after a digit
   * run and its '.'. Only the longest digit run can be followed by '.', so
   * backtracking into `\d+` never helps.
   */
  function MarkerEnd(s: string, p: nat): (b: Option<nat>)
    requires p <= |s|
    ensures b.Some? ==> p < b.value <= |s| && IsMarker(s[b.value - 1])
    ensures b.Some? ==> (s[p] == '*' && b.value == p + 1) ||
                        ((forall k :: p <= k < b.value - 1 ==> IsDigit(s[k])) && p < b.value - 1 && s[b.value - 1] == '.')
    ensures b.None? ==> p == |s| || (s[p] != '*' && (DigitRun(s, p) == 0 || p + DigitRun(s, p) == |s| || s[p + DigitRun(s, p)] != '.'))
  {
    if p < |s| && s[p] == '*' then Some(p + 1)
    else
      var d := DigitRun(s, p);
      if d > 0 && p + d < |s| && s[p + d] == '.' then Some(p + d + 1) else None
  }

  /**
   * `q` is where `\s*` stops once the lookahead succeeds: within the whitespace
   * run after `b`, and no longer whitespace prefix would have let it succeed.
   */
  predicate GreediestCapture(s: string, b: nat, q: nat)
    requires b <= |s|
  {
    b <= q <= b + SpaceRun(s, b) &&
    forall i :: q < i <= b + SpaceRun(s, b) ==> !LookaheadHolds(s, LineEnd(s, i))
  }

  /** After `b`, the lookahead fails for every length `\s*` could give back to. */
  predicate NoCapture(s: string, b: nat)
    requires b <= |s|
  {
    forall i :: b <= i <= b + SpaceRun(s, b) ==> !LookaheadHolds(s, LineEnd(s, i))
  }

  /** The match attempt at position `p`. */
  function MatchAt(s: string, p: nat): (r: Option<Match>)
    requires p <= |s|
    ensures r.Some? ==> r.value.start == p && p < r.value.captureStart <= r.value.end <= |s|
    ensures r.Some? ==> r.value.end == LineEnd(s, r.value.captureStart) && LookaheadHolds(s, r.value.end)
    ensures r.Some? ==> exists k :: p <= k < r.value.captureStart && IsMarker(s[k])
    ensures r.Some? ==> MarkerEnd(s, p).Some? && GreediestCapture(s, MarkerEnd(s, p).value, r.value.captureStart)
    ensures r.None? <==> MarkerEnd(s, p).None? || NoCapture(s, MarkerEnd(s, p).value)
  {
    var b := MarkerEnd(s, p);
    if b.None? then None
    else
      var q := CaptureStart(s, b.value, SpaceRun(s, b.value));
      if q.None? then None
      else Some(Match(p, q.value, LineEnd(s, q.value)))
  }

  predicate InText(s: string, m: Match) {
    m.start < m.captureStart <= m.end <= |s|
  }

  /** `exec` with `lastIndex == from`: the leftmost successful attempt at or after `from`. */
  function Exec(s: string, from: nat): (r: Option<Match>)
    requires from <= |s|
    ensures r.Some? ==> from <= r.value.start <= |s| && MatchAt(s, r.value.start) == r
    ensures r.Some? ==> forall p :: from <= p < r.value.start ==> MatchAt(s, p).None?
    ensures r.None? ==> forall p :: from <= p <= |s| ==> MatchAt(s, p).None?
    decreases |s| - from
  {
    if from == |s| then None
    else
      var here := MatchAt(s, from);
      if here.Some? then here else Exec(s, from + 1)
  }

  // ---------------------------------------------------------------------------
  // The scan


  predicate AllInText(s: string, ms: seq<Match>) {
    forall i {:trigger InText(s, ms[i])} :: 0 <= i < |ms| ==> InText(s, ms[i])
  }

  /** The successive results of `exec` from `from` until it returns null. */
  function MatchesFrom(s: string, from: nat): (ms: seq<Match>)
    requires from <= |s|
    ensures AllInText(s, ms) && forall i :: 0 <= i < |ms| ==> from <= ms[i].start
    decreases |s| - from
  {
    var next := Exec(s, from);
    if next.None? then []
    else
      var m := next.value;
      var rest := MatchesFrom(s, m.end);
      ConsInText(s, from, m, rest);
      [m] + rest
  }

  lemma ConsInText(s: string, from: nat, m: Match, rest: seq<Match>)
    requires InText(s, m) && from <= m.start
    requires AllInText(s, rest) && forall i :: 0 <= i < |rest| ==> m.end <= rest[i].start
    ensures AllInText(s, [m] + rest) && forall i :: 0 <= i < |[m] + rest| ==> from <= ([m] + rest)[i].start
  {
    var ms := [m] + rest;
    forall j | 0 <= j < |ms|
      ensures InText(s, ms[j]) && from <= ms[j].start
    {
      if j > 0 {
        assert ms[j] == rest[j - 1];
        assert InText(s, rest[j - 1]);
      }
    }
  }

  /** The first index at or after `i` that does not hold whitespace (or the end). */
  function TrimStartIndex(s: string, i: nat): (a: nat)
    requires i <= |s|
    ensures i <= a <= |s|
    ensures forall k :: i <= k < a ==> IsJsSpace(s[k])
    ensures a < |s| ==> !IsJsSpace(s[a])
    decreases |s| - i
  {
    if i < |s| && IsJsSpace(s[i]) then TrimStartIndex(s, i + 1) else i
  }

  /** The end of `s[lo..j]` once the whitespace before `j` is dropped. */
  function TrimEndIndex(s: string, lo: nat, j: nat): (b: nat)
    requires lo <= j <= |s|
    ensures lo <= b <= j
    ensures forall k :: b <= k < j ==> IsJsSpace(s[k])
    ensures lo < b ==> !IsJsSpace(s[b - 1])
    decreases j - lo
  {
    if lo < j && IsJsSpace(s[j - 1]) then TrimEndIndex(s, lo, j - 1) else j
  }

  /**
   * `s.trim()`: the slice of `s` between the leading and the trailing
   * whitespace; it begins and ends with a non-space character, unless empty.
   */
  function Trim(s: string): (r: string)
    ensures IsTrimmed(r)
    ensures var a := TrimStartIndex(s, 0);
            var b := TrimEndIndex(s, a, |s|);
            r == s[a..b] &&
            (forall k :: 0 <= k < a ==> IsJsSpace(s[k])) &&
            (forall k :: b <= k < |s| ==> IsJsSpace(s[k]))
  {
    var a := TrimStartIndex(s, 0);
    var b := TrimEndIndex(s, a, |s|);
    s[a..b]
  }

  predicate IsTrimmed(t: string) {
    t == [] || (!IsJsSpace(t[0]) && !IsJsSpace(t[|t| - 1]))
  }

  /** `match[1].trim()`. */
  function TaskOf(s: string, m: Match): (t: string)
    requires InText(s, m)
    ensures IsTrimmed(t) && |t| <= m.end - m.captureStart
  {
    Trim(s[m.captureStart..m.end])
  }

  /** One trimmed capture per match, in the order of the matches. */
  function TasksOf(s: string, ms: seq<Match>): (ts: seq<string>)
    requires AllInText(s, ms)
    ensures |ts| == |ms|
    ensures forall i :: 0 <= i < |ms| ==> ts[i] == TaskOf(s, ms[i])
  {
    if ms == [] then [] else [TaskOf(s, ms[0])] + TasksOf(s, ms[1..])
  }

  lemma {:induction false} TasksOfAppend(s: string, a: seq<Match>, b: seq<Match>)
    requires AllInText(s, a)
    requires AllInText(s, b)
    ensures TasksOf(s, a + b) == TasksOf(s, a) + TasksOf(s, b)
  {
    if a == [] {
      assert a + b == b;
    } else {
      assert (a + b)[0] == a[0];
      assert (a + b)[1..] == a[1..] + b;
      TasksOfAppend(s, a[1..], b);
    }
  }

  lemma MatchesStep(s: string, from: nat)
    requires from <= |s| && Exec(s, from).Some?
    ensures MatchesFrom(s, from) == [Exec(s, from).value] + MatchesFrom(s, Exec(s, from).value.end)
  {
  }

  /** Taking one more match keeps `done` a prefix of the scan from the start. */
  lemma MatchesAdvance(s: string, done: seq<Match>, from: nat)
    requires from <= |s| && Exec(s, from).Some?
    requires done + MatchesFrom(s, from) == MatchesFrom(s, 0)
    ensures var m := Exec(s, from).value;
            (done + [m]) + MatchesFrom(s, m.end) == MatchesFrom(s, 0)
  {
    var m := Exec(s, from).value;
    MatchesStep(s, from);
    SnocAssoc(done, m, MatchesFrom(s, m.end));
  }

  lemma SnocAssoc<T>(a: seq<T>, x: T, b: seq<T>)
    ensures (a + [x]) + b == a + ([x] + b)
  {
  }

  lemma TasksOfSnoc(s: string, done: seq<Match>, m: Match)
    requires AllInText(s, done) && InText(s, m)
    ensures AllInText(s, done + [m]) && TasksOf(s, done + [m]) == TasksOf(s, done) + [TaskOf(s, m)]
  {
    assert AllInText(s, done + [m]);
    TasksOfAppend(s, done, [m]);
    assert TasksOf(s, [m]) == [TaskOf(s, m)];
  }

  /** What `parseEmailContent` returns: one trimmed capture per match, in order. */
  function Tasks(s: string): (ts: seq<string>)
    ensures |ts| == |MatchesFrom(s, 0)|
    ensures forall i :: 0 <= i < |ts| ==> ts[i] == TaskOf(s, MatchesFrom(s, 0)[i])
  {
    TasksOf(s, MatchesFrom(s, 0))
  }

  /** `parseEmailContent`: the `exec` loop. */
  method ParseEmailContent(emailContent: string) returns (tasks: seq<string>)
    ensures tasks == Tasks(emailContent)
  {
    tasks := [];
    var lastIndex: nat := 0;
    ghost var done: seq<Match> := [];
    var m := Exec(emailContent, lastIndex);
    while m.Some?
      invariant lastIndex <= |emailContent|
      invariant m == Exec(emailContent, lastIndex)
      invariant AllInText(emailContent, done)
      invariant done + MatchesFrom(emailContent, lastIndex) == MatchesFrom(emailContent, 0)
      invariant tasks == TasksOf(emailContent, done)
      decreases |emailContent| - lastIndex
    {
      var found := m.value;
      tasks := tasks + [Trim(emailContent[found.captureStart..found.end])];
      MatchesAdvance(emailContent, done, lastIndex);
      TasksOfSnoc(emailContent, done, found);
      done := done + [found];
      lastIndex := found.end;
      m := Exec(emailContent, lastIndex);
    }
    assert done == done + MatchesFrom(emailContent, lastIndex);
  }

  /** `extractTasks`: resolves to the tasks of its input. */
  method ExtractTasks(emailContent: string) returns (tasks: seq<string>)
    ensures tasks == Tasks(emailContent)
  {
    tasks := ParseEmailContent(emailContent);
  }

  datatype RelevantInfo = RelevantInfo(subject: string, tasks: seq<string>)

  /** `extractRelevantInfo`: the subject unchanged and the tasks of the body. */
  method ExtractRelevantInfo(subject: string, body: string) returns (info: RelevantInfo)
    ensures info.subject == subject && info.tasks == Tasks(body)
  {
    var tasks := ParseEmailContent(body);
    info := RelevantInfo(subject, tasks);
  }

  // ---------------------------------------------------------------------------
  // Properties of the scan

  /** The scan is empty exactly when the first `exec` fails, and otherwise begins with its result. */
  lemma MatchesFirst(s: string, from: nat)
    requires from <= |s|
    ensures MatchesFrom(s, from) == [] <==> Exec(s, from).None?
    ensures MatchesFrom(s, from) != [] ==> Exec(s, from) == Some(MatchesFrom(s, from)[0])
  {
  }

  /** Each further match is what `exec` returns when resumed at the end of the previous one. */
  lemma {:induction false} MatchesResume(s: string, from: nat)
    requires from <= |s|
    ensures var ms := MatchesFrom(s, from);
            forall i :: 0 <= i < |ms| - 1 ==> InText(s, ms[i]) && Exec(s, ms[i].end) == Some(ms[i + 1])
    decreases |s| - from
  {
    var ms := MatchesFrom(s, from);
    if ms != [] {
      var m := Exec(s, from).value;
      var rest := MatchesFrom(s, m.end);
      assert ms == [m] + rest;
      MatchesResume(s, m.end);
      MatchesFirst(s, m.end);
      forall i | 0 <= i < |ms| - 1
        ensures InText(s, ms[i]) && Exec(s, ms[i].end) == Some(ms[i + 1])
      {
        assert InText(s, ms[i]);
        assert ms[i + 1] == rest[i];
        if i > 0 {
          assert ms[i] == rest[i - 1];
        }
      }
    }
  }

  predicate IsMatch(s: string, m: Match) {
    m.start <= |s| && MatchAt(s, m.start) == Some(m)
  }

  /** Every element of the scan is a successful match attempt at its own position. */
  lemma {:induction false} MatchesAreMatches(s: string, from: nat)
    requires from <= |s|
    ensures forall m :: m in MatchesFrom(s, from) ==> IsMatch(s, m)
    decreases |s| - from
  {
    match Exec(s, from)
    case None =>
    case Some(m) =>
      MatchesAreMatches(s, m.end);
  }

  /** The matches do not overlap and come in left-to-right order. */
  lemma {:induction false} MatchesOrdered(s: string, from: nat)
    requires from <= |s|
    ensures var ms := MatchesFrom(s, from);
            forall i, j :: 0 <= i < j < |ms| ==> ms[i].end <= ms[j].start
    decreases |s| - from
  {
    var ms := MatchesFrom(s, from);
    if ms != [] {
      var m := Exec(s, from).value;
      MatchesOrdered(s, m.end);
      assert ms[1..] == MatchesFrom(s, m.end);
      forall i, j | 0 <= i < j < |ms|
        ensures ms[i].end <= ms[j].start
      {
        assert ms[j] == ms[1..][j - 1];
        if i > 0 {
          assert ms[i] == ms[1..][i - 1];
        }
      }
    }
  }

  /** Every match starts with '*' or with digits and '.', then skips whitespace, line breaks included. */
  lemma MatchStartsAtMarker(s: string, m: Match)
    requires IsMatch(s, m)
    ensures s[m.start] == '*' ||
            (DigitRun(s, m.start) > 0 && m.start + DigitRun(s, m.start) < m.captureStart &&
             s[m.start + DigitRun(s, m.start)] == '.')
    ensures var b := if s[m.start] == '*' then m.start + 1 else m.start + DigitRun(s, m.start) + 1;
            b <= m.captureStart && forall k :: b <= k < m.captureStart ==> IsJsSpace(s[k])
  {
    var b := MarkerEnd(s, m.start).value;
    var run := SpaceRun(s, b);
    assert m.captureStart <= b + run;
    assert forall k :: b <= k < m.captureStart ==> IsJsSpace(s[k]);
  }

  predicate NoLineTerminator(t: string) {
    forall k :: 0 <= k < |t| ==> !IsLineTerminator(t[k])
  }

  /** Trimming removes characters only at the ends, so it cannot bring in a line terminator. */
  lemma TrimKeepsLines(t: string)
    requires NoLineTerminator(t)
    ensures NoLineTerminator(Trim(t))
  {
    var a := TrimStartIndex(t, 0);
    var b := TrimEndIndex(t, a, |t|);
    var r := Trim(t);
    forall k | 0 <= k < |r|
      ensures !IsLineTerminator(r[k])
    {
      assert r[k] == t[a + k];
    }
  }

  /** The task of one match: `.*?` stopped before the first line terminator, then trimmed. */
  lemma TaskOfShape(s: string, m: Match)
    requires InText(s, m) && IsMatch(s, m)
    ensures NoLineTerminator(TaskOf(s, m)) && IsTrimmed(TaskOf(s, m))
  {
    var capture := s[m.captureStart..m.end];
    assert NoLineTerminator(capture);
    TrimKeepsLines(capture);
  }

  /** A task never contains a line terminator and has no surrounding whitespace. */
  lemma {:induction false} TasksShape(s: string, ms: seq<Match>)
    requires AllInText(s, ms)
    requires forall m :: m in ms ==> IsMatch(s, m)
    ensures forall t :: t in TasksOf(s, ms) ==> NoLineTerminator(t) && IsTrimmed(t)
  {
    if ms != [] {
      assert InText(s, ms[0]) && IsMatch(s, ms[0]);
      TaskOfShape(s, ms[0]);
      assert AllInText(s, ms[1..]) by {
        forall i | 0 <= i < |ms[1..]|
          ensures InText(s, ms[1..][i])
        {
          assert ms[1..][i] == ms[i + 1];
          assert InText(s, ms[i + 1]);
        }
      }
      assert forall m :: m in ms[1..] ==> m in ms;
      TasksShape(s, ms[1..]);
      assert TasksOf(s, ms) == [TaskOf(s, ms[0])] + TasksOf(s, ms[1..]);
    }
  }

  lemma TaskShape(s: string)
    ensures forall t :: t in Tasks(s) ==> NoLineTerminator(t) && IsTrimmed(t)
  {
    MatchesAreMatches(s, 0);
    TasksShape(s, MatchesFrom(s, 0));
  }

  /** The number of '*' and '.' characters in `s[i..j]`. */
  function MarkersBetween(s: string, i: nat, j: nat): nat
    requires i <= j <= |s|
    decreases j - i
  {
    if i == j then 0 else MarkersBetween(s, i, j - 1) + (if IsMarker(s[j - 1]) then 1 else 0)
  }

  function MarkerCount(s: string): nat {
    MarkersBetween(s, 0, |s|)
  }

  lemma {:induction false} MarkersSplit(s: string, i: nat, j: nat, k: nat)
    requires i <= j <= k <= |s|
    ensures MarkersBetween(s, i, k) == MarkersBetween(s, i, j) + MarkersBetween(s, j, k)
    decreases k - j
  {
    if j < k {
      MarkersSplit(s, i, j, k - 1);
    }
  }

  lemma {:induction false} MarkersPositive(s: string, i: nat, j: nat, k: nat)
    requires i <= k < j <= |s| && IsMarker(s[k])
    ensures MarkersBetween(s, i, j) >= 1
    decreases j - i
  {
    if k < j - 1 {
      MarkersPositive(s, i, j - 1, k);
    }
  }

  /** A match consumes at least one '*' or '.'. */
  lemma MatchHasMarker(s: string, from: nat, m: Match)
    requires from <= m.start && IsMatch(s, m)
    ensures MarkersBetween(s, from, m.end) >= 1
  {
    var k :| m.start <= k < m.captureStart && IsMarker(s[k]);
    MarkersPositive(s, from, m.end, k);
  }

  /** Matches do not overlap and each consumes a '*' or a '.', so there are at most that many. */
  lemma {:induction false} MatchCountBound(s: string, from: nat)
    requires from <= |s|
    ensures |MatchesFrom(s, from)| <= MarkersBetween(s, from, |s|)
    decreases |s| - from
  {
    var r := Exec(s, from);
    if r.Some? {
      var m := r.value;
      assert IsMatch(s, m);
      MatchCountBound(s, m.end);
      MatchesStep(s, from);
      MatchHasMarker(s, from, m);
      MarkersSplit(s, from, m.end, |s|);
    }
  }

  lemma {:induction false} TasksOfLength(s: string, ms: seq<Match>)
    requires AllInText(s, ms)
    ensures |TasksOf(s, ms)| == |ms|
  {
    if ms != [] {
      TasksOfLength(s, ms[1..]);
    }
  }

  lemma TaskCountBound(s: string)
    ensures |Tasks(s)| <= MarkerCount(s)
  {
    TasksOfLength(s, MatchesFrom(s, 0));
    MatchCountBound(s, 0);
  }

  /** Without a '*' and without a digit directly followed by '.', no match attempt gets past its marker. */
  lemma NoMarkerAt(s: string, p: nat)
    requires p <= |s|
    requires forall k :: 0 <= k < |s| ==> s[k] != '*'
    requires forall k :: 0 <= k < |s| - 1 ==> !(IsDigit(s[k]) && s[k + 1] == '.')
    ensures MarkerEnd(s, p).None?
  {
    var d := DigitRun(s, p);
    if d > 0 && p + d < |s| {
      assert IsDigit(s[p + d - 1]);
    }
  }

  /** Without a '*' and without a digit directly followed by '.', there is no task. */
  lemma NoBulletNoTasks(s: string)
    requires forall k :: 0 <= k < |s| ==> s[k] != '*'
    requires forall k :: 0 <= k < |s| - 1 ==> !(IsDigit(s[k]) && s[k + 1] == '.')
    ensures Tasks(s) == []
  {
    var r := Exec(s, 0);
    if r.Some? {
      NoMarkerAt(s, r.value.start);
      assert false;
    }
    assert MatchesFrom(s, 0) == [];
  }

  // ---------------------------------------------------------------------------
  // Consequences of the matching order

  const BareBullet := "*\nfoo"

  lemma BareBulletMatch()
    ensures Exec(BareBullet, 0) == Some(Match(0, 2, 5))
  {
    var s := BareBullet;
    assert SpaceRun(s, 1) == 1;
    assert LineEnd(s, 2) == 5;
    assert MatchAt(s, 0) == Some(Match(0, 2, 5));
  }

  lemma BareBulletText()
    ensures TaskOf(BareBullet, Match(0, 2, 5)) == "foo"
  {
    assert BareBullet[2..5] == "foo";
    assert TrimStartIndex("foo", 0) == 0 && TrimEndIndex("foo", 0, 3) == 3;
  }

  /** A bare '*' at the end of a line: `\s*` swallows the line break and the next line is captured. */
  lemma BareBulletTakesNextLine()
    ensures Tasks(BareBullet) == ["foo"]
  {
    var s := BareBullet;
    BareBulletMatch();
    MatchesStep(s, 0);
    assert MatchesFrom(s, 5) == [];
    BareBulletText();
    assert TasksOf(s, [Match(0, 2, 5)]) == [TaskOf(s, Match(0, 2, 5))] + TasksOf(s, []);
  }

  const CrLfBullet := "* a\r\n"

  lemma CrLfNoMatchAtStart()
    ensures MatchAt(CrLfBullet, 0).None?
  {
    var s := CrLfBullet;
    assert MarkerEnd(s, 0) == Some(1);
    assert SpaceRun(s, 1) == 1;
    assert LineEnd(s, 2) == 3 && LineEnd(s, 1) == 3;
  }

  lemma CrLfNoOtherMarker(p: nat)
    requires 1 <= p <= |CrLfBullet|
    ensures MatchAt(CrLfBullet, p).None?
  {
    var s := CrLfBullet;
    assert p < |s| ==> s[p] != '*' && !IsDigit(s[p]);
    assert MarkerEnd(s, p).None?;
  }

  /** A line ending in "\r\n" defeats the match: `.` stops at '\r' and the lookahead wants '\n'. */
  lemma CarriageReturnDefeatsBullet()
    ensures Tasks(CrLfBullet) == []
  {
    var s := CrLfBullet;
    var r := Exec(s, 0);
    if r.Some? {
      if r.value.start == 0 {
        CrLfNoMatchAtStart();
      } else {
        CrLfNoOtherMarker(r.value.start);
      }
      assert false;
    }
    assert MatchesFrom(s, 0) == [];
  }

  const NumberedThenStarred := "1. Buy\n* Call "

  lemma NumberedItemFirst()
    ensures Exec(NumberedThenStarred, 0) == Some(Match(0, 3, 6))
  {
    var s := NumberedThenStarred;
    assert DigitRun(s, 0) == 1 && MarkerEnd(s, 0) == Some(2) && SpaceRun(s, 2) == 1;
    assert LineEnd(s, 3) == 6;
    assert MatchAt(s, 0) == Some(Match(0, 3, 6));
  }

  lemma StarredItemSecond()
    ensures Exec(NumberedThenStarred, 6) == Some(Match(7, 9, 14))
  {
    var s := NumberedThenStarred;
    assert DigitRun(s, 6) == 0 && MarkerEnd(s, 6).None? && MatchAt(s, 6).None?;
    assert MarkerEnd(s, 7) == Some(8) && SpaceRun(s, 8) == 1 && LineEnd(s, 9) == 14;
    assert MatchAt(s, 7) == Some(Match(7, 9, 14));
  }

  lemma StarredTail()
    ensures MatchesFrom(NumberedThenStarred, 6) == [Match(7, 9, 14)]
  {
    var s := NumberedThenStarred;
    StarredItemSecond();
    MatchesStep(s, 6);
    assert MatchesFrom(s, 14) == [];
  }

  lemma NumberedThenStarredMatches()
    ensures MatchesFrom(NumberedThenStarred, 0) == [Match(0, 3, 6), Match(7, 9, 14)]
  {
    var s := NumberedThenStarred;
    NumberedItemFirst();
    MatchesStep(s, 0);
    StarredTail();
  }

  /** A numbered item and a starred item, one per line, each trimmed. */
  lemma NumberedAndStarredItems()
    ensures Tasks(NumberedThenStarred) == ["Buy", "Call"]
  {
    NumberedThenStarredMatches();
    TasksOfPair(NumberedThenStarred, Match(0, 3, 6), Match(7, 9, 14));
    ItemTexts();
  }

  lemma TasksOfPair(s: string, a: Match, b: Match)
    requires InText(s, a) && InText(s, b)
    ensures AllInText(s, [a, b]) && TasksOf(s, [a, b]) == [TaskOf(s, a), TaskOf(s, b)]
  {
    assert AllInText(s, [a, b]) by {
      assert [a, b][0] == a && [a, b][1] == b;
    }
    assert [a, b][1..] == [b];
    assert TasksOf(s, [b]) == [TaskOf(s, b)] + TasksOf(s, []);
  }

  lemma ItemTexts()
    ensures TaskOf(NumberedThenStarred, Match(0, 3, 6)) == "Buy"
    ensures TaskOf(NumberedThenStarred, Match(7, 9, 14)) == "Call"
  {
    var s := NumberedThenStarred;
    assert s[3..6] == "Buy";
    assert s[9..14] == "Call ";
    TrimmedItems();
  }

  lemma TrimmedItems()
    ensures Trim("Buy") == "Buy" && Trim("Call ") == "Call"
  {
    assert TrimStartIndex("Buy", 0) == 0 && TrimEndIndex("Buy", 0, 3) == 3;
    assert TrimStartIndex("Call ", 0) == 0 && TrimEndIndex("Call ", 0, 4) == 4;
    assert TrimEndIndex("Call ", 0, 5) == 4;
  }
}
