/**
 * The credential scan of `authenticate`: the signed-in player page is read line by line for
 * the four `amznMusic.<name> = '<value>';` assignments, and the session cookies are joined
 * into one header value. The page lines and the cookies are inputs.
 */
module Credentials {
  import opened Wrappers
  import opened Protocol

  /** Python 2 whitespace, both for `str.strip()` and for the regex class `\s`. */
  predicate IsSpace(c: char)
  {
    c == ' ' || c == '\t' || c == '\n' || c == '\r' || c as int == 11 || c as int == 12
  }

  predicate AllSpace(s: string)
  {
    forall i | 0 <= i < |s| :: IsSpace(s[i])
  }

  /** The length of the leading run of whitespace. */
  function LeadingSpaces(s: string): (n: nat)
    ensures n <= |s| && forall k | 0 <= k < n :: IsSpace(s[k])
    ensures n < |s| ==> !IsSpace(s[n])
  {
    if s != [] && IsSpace(s[0]) then 1 + LeadingSpaces(s[1..]) else 0
  }

  /** The length of the trailing run of whitespace. */
  function TrailingSpaces(s: string): (n: nat)
    ensures n <= |s| && forall k | |s| - n <= k < |s| :: IsSpace(s[k])
    ensures n < |s| ==> !IsSpace(s[|s| - n - 1])
  {
    if s != [] && IsSpace(s[|s| - 1]) then 1 + TrailingSpaces(s[..|s| - 1]) else 0
  }

  /** `line.strip()`: the line without leading and trailing whitespace. */
  function Strip(s: string): (r: string)
    ensures r == [] || (!IsSpace(r[0]) && !IsSpace(r[|r| - 1]))
    ensures r == [] <==> AllSpace(s)
  {
    var i := LeadingSpaces(s);
    var j := |s| - TrailingSpaces(s[i..]);
    assert forall k | j <= k < |s| :: IsSpace(s[k]) by {
      forall k | j <= k < |s| ensures IsSpace(s[k]) {
        assert s[k] == s[i..][k - i];
      }
    }
    assert i < j ==> !IsSpace(s[j - 1]) by {
      if i < j {
        assert s[j - 1] == s[i..][j - 1 - i];
      }
    }
    s[i..j]
  }

  /** What strip() removes is whitespace, at both ends only. */
  lemma StripInfix(s: string)
    ensures exists i, j | 0 <= i <= j <= |s| :: Strip(s) == s[i..j] && AllSpace(s[..i]) && AllSpace(s[j..])
  {
    var i := LeadingSpaces(s);
    var j := |s| - TrailingSpaces(s[i..]);
    forall k | j <= k < |s| ensures IsSpace(s[k]) {
      assert s[k] == s[i..][k - i];
    }
    assert Strip(s) == s[i..j];
  }

  /** Stripping is idempotent. */
  lemma StripIdempotent(s: string)
    ensures Strip(Strip(s)) == Strip(s)
  {
    var r := Strip(s);
    if r != [] {
      assert LeadingSpaces(r) == 0;
      assert TrailingSpaces(r) == 0;
      assert r[0..|r|] == r;
    }
  }

  /** The four session fields, in the order `vars_map` tries them. */
  datatype Field = CustomerId | AdpToken | DeviceId | DeviceType

  const FieldOrder: seq<Field> := [CustomerId, AdpToken, DeviceId, DeviceType]

  /** The name that follows `amznMusic.` in each field's pattern. */
  function VarName(f: Field): string
  {
    match f
    case CustomerId => "customerId"
    case AdpToken => "tid"
    case DeviceId => "did"
    case DeviceType => "dtid"
  }

  predicate IsQuote(c: char)
  {
    c == '\'' || c == '"'
  }

  /** A closing quote followed by `;` at position j. */
  predicate ClosesAt(body: string, j: int)
  {
    0 <= j && j + 2 <= |body| && IsQuote(body[j]) && body[j + 1] == ';'
  }

  /** The length of the prefix without a newline: how far `.` may reach. */
  function LineRun(s: string): (n: nat)
    ensures n <= |s| && (forall i | 0 <= i < n :: s[i] != '\n') && (n < |s| ==> s[n] == '\n')
  {
    if s == [] || s[0] == '\n' then 0 else 1 + LineRun(s[1..])
  }

  /** The last position j <= bound where a closing quote and `;` stand. */
  function LastClose(body: string, bound: nat): (r: Option<nat>)
    ensures r.Some? ==> r.value <= bound && ClosesAt(body, r.value)
    ensures r.Some? ==> forall j | r.value < j <= bound :: !ClosesAt(body, j)
    ensures r.None? ==> forall j | 0 <= j <= bound :: !ClosesAt(body, j)
  {
    if ClosesAt(body, bound) then Some(bound)
    else if bound == 0 then None
    else LastClose(body, bound - 1)
  }

  /**
   * `(.*)['"];` after the opening quote: the greedy group stops at the last closing quote
   * followed by `;` that it can reach without crossing a newline.
   */
  function Capture(body: string): Option<string>
  {
    match LastClose(body, LineRun(body))
    case None => None
    case Some(j) => Some(body[..j])
  }

  /**
   * `regex.match(line)` for the field's pattern `amznMusic.<name>\s*=\s*['"](.*)['"];`. The
   * `.` after amznMusic is any character but a newline. The adp-token pattern has `=\s` where
   * the others have `=\s*`: exactly one whitespace character between `=` and the quote.
   */
  function MatchVar(f: Field, line: string): (r: Option<string>)
    ensures r.Some? ==> StartsWith(line, "amznMusic") && |line| > 9 && line[9] != '\n'
  {
    var head := 10 + |VarName(f)|;
    if |line| < head || line[..9] != "amznMusic" || line[9] == '\n' || line[10..head] != VarName(f) then None
    else MatchAfterName(f, line[head..])
  }

  /** `\s*=` and what follows, after the name. */
  function MatchAfterName(f: Field, rest: string): Option<string>
  {
    var i := LeadingSpaces(rest);
    if i == |rest| || rest[i] != '=' then None else MatchAfterEquals(f, rest[i + 1..])
  }

  /** `\s*['"]` (`\s['"]` for the adp token) and the captured value, after `=`. */
  function MatchAfterEquals(f: Field, after: string): Option<string>
  {
    var gap := if f == AdpToken then (if after != [] && IsSpace(after[0]) then 1 else -1) else LeadingSpaces(after);
    if gap < 0 || gap == |after| || !IsQuote(after[gap]) then None
    else Capture(after[gap + 1..])
  }

  /** The assignment line the player page carries for a field, with single quotes. */
  function Assignment(f: Field, value: string): string
  {
    "amznMusic." + VarName(f) + " = '" + value + "';"
  }

  /** The group captures everything up to a final closing quote and `;`. */
  lemma CaptureValue(value: string, q: char)
    requires forall i | 0 <= i < |value| :: value[i] != '\n'
    requires IsQuote(q)
    ensures Capture(value + [q, ';']) == Some(value)
  {
    var body := value + [q, ';'];
    LineRunNoNewline(body);
    assert ClosesAt(body, |value|) && !ClosesAt(body, |value| + 1) && !ClosesAt(body, |value| + 2);
    assert LastClose(body, |value|) == Some(|value|);
    assert LastClose(body, |value| + 1) == Some(|value|);
    assert LastClose(body, |value| + 2) == Some(|value|);
    assert body[..|value|] == value;
  }

  lemma MatchAfterEqualsValue(f: Field, value: string)
    requires forall i | 0 <= i < |value| :: value[i] != '\n'
    ensures MatchAfterEquals(f, " '" + value + "';") == Some(value)
  {
    var after := " '" + value + "';";
    assert after[0] == ' ' && after[1] == '\'';
    assert LeadingSpaces(after) == 1 by {
      assert after[1..][0] == '\'';
    }
    assert after[2..] == value + ['\'', ';'];
    CaptureValue(value, '\'');
  }

  lemma MatchAfterNameValue(f: Field, value: string)
    requires forall i | 0 <= i < |value| :: value[i] != '\n'
    ensures MatchAfterName(f, " = '" + value + "';") == Some(value)
  {
    var rest := " = '" + value + "';";
    assert rest[0] == ' ' && rest[1] == '=';
    assert LeadingSpaces(rest) == 1 by {
      assert rest[1..][0] == '=';
    }
    assert rest[2..] == " '" + value + "';";
    MatchAfterEqualsValue(f, value);
  }

  /** A field's own pattern reads its assignment back, whatever the value (on one line). */
  lemma MatchAssignment(f: Field, value: string)
    requires forall i | 0 <= i < |value| :: value[i] != '\n'
    ensures MatchVar(f, Assignment(f, value)) == Some(value)
  {
    var name := VarName(f);
    var prefix := "amznMusic." + name;
    var rest := " = '" + value + "';";
    var line := prefix + rest;
    assert line == Assignment(f, value);
    var head := 10 + |name|;
    assert line[..9] == prefix[..9] == "amznMusic";
    assert line[9] == prefix[9] == '.';
    assert line[10..head] == prefix[10..] == name;
    assert line[head..] == rest;
    MatchAfterNameValue(f, value);
  }

  lemma {:induction false} LineRunNoNewline(s: string)
    requires forall i | 0 <= i < |s| :: s[i] != '\n'
    ensures LineRun(s) == |s|
    decreases |s|
  {
    if s != [] {
      LineRunNoNewline(s[1..]);
    }
  }

  /** The first field, in `vars_map` order, whose pattern matches the line. */
  function FirstMatch(line: string, fields: seq<Field>): Option<(Field, string)>
  {
    if fields == [] then None
    else
      match MatchVar(fields[0], line)
      case Some(v) => Some((fields[0], v))
      case None => FirstMatch(line, fields[1..])
  }

  /** The first match is a match, and there is none only when no pattern matches. */
  lemma FirstMatchSpec(line: string, fields: seq<Field>)
    ensures var r := FirstMatch(line, fields);
      && (r.Some? ==> r.value.0 in fields && MatchVar(r.value.0, line) == Some(r.value.1))
      && (r.None? <==> forall f | f in fields :: MatchVar(f, line).None?)
  {
    FirstMatchFound(line, fields);
    FirstMatchNone(line, fields);
  }

  /** A first match is a field of the list whose pattern gives that capture. */
  lemma {:induction false} FirstMatchFound(line: string, fields: seq<Field>)
    ensures var r := FirstMatch(line, fields);
      r.Some? ==> r.value.0 in fields && MatchVar(r.value.0, line) == Some(r.value.1)
    decreases |fields|
  {
    if fields != [] {
      FirstMatchFound(line, fields[1..]);
    }
  }

  /** There is no first match exactly when no pattern of the list matches. */
  lemma {:induction false} FirstMatchNone(line: string, fields: seq<Field>)
    ensures FirstMatch(line, fields).None? <==> forall f | f in fields :: MatchVar(f, line).None?
    decreases |fields|
  {
    if fields != [] {
      FirstMatchNone(line, fields[1..]);
      assert forall f | f in fields :: f == fields[0] || f in fields[1..];
    }
  }

  /** What one page line contributes: only stripped lines starting with `amznMusic.` are tried. */
  function Examine(line: string): Option<(Field, string)>
  {
    var l := Strip(line);
    if StartsWith(l, "amznMusic.") then FirstMatch(l, FieldOrder) else None
  }

  /** A pattern that matches has its name right after `amznMusic.`: the first two letters suffice. */
  lemma MatchVarName(g: Field, line: string)
    ensures MatchVar(g, line).Some? ==> |line| >= 12 && line[10..12] == VarName(g)[..2]
  {
    var name := VarName(g);
    if |line| >= 10 + |name| && line[10..10 + |name|] == name {
      assert line[10..12] == line[10..10 + |name|][..2];
    }
  }

  /** The four names already differ in their first two letters. */
  lemma NamesDiffer(f: Field, g: Field)
    requires f != g
    ensures VarName(f)[..2] != VarName(g)[..2]
  {
    var a, b := VarName(f), VarName(g);
    assert a[..2][0] == a[0] && a[..2][1] == a[1];
    assert b[..2][0] == b[0] && b[..2][1] == b[1];
    assert a[0] != b[0] || a[1] != b[1];
  }

  /** A line without whitespace at either end is left as it is by strip(). */
  lemma StripUntouched(s: string)
    requires s != [] && !IsSpace(s[0]) && !IsSpace(s[|s| - 1])
    ensures Strip(s) == s
  {
    assert s[0..] == s;
  }

  /** No other pattern matches an assignment line: the names differ in their first two letters. */
  lemma OnlyOwnPattern(f: Field, g: Field, value: string)
    requires g != f
    ensures MatchVar(g, Assignment(f, value)).None?
  {
    var line := Assignment(f, value);
    assert line[10..12] == VarName(f)[..2];
    MatchVarName(g, line);
    NamesDiffer(f, g);
  }

  /** The patterns have distinct names, so an assignment line is claimed by its own field. */
  lemma ExamineAssignment(f: Field, value: string)
    requires forall i | 0 <= i < |value| :: value[i] != '\n'
    ensures Examine(Assignment(f, value)) == Some((f, value))
  {
    var line := Assignment(f, value);
    StripUntouched(line);
    assert StartsWith(line, "amznMusic.") by { assert line[..10] == "amznMusic."; }
    MatchAssignment(f, value);
    forall g | g in FieldOrder && g != f ensures MatchVar(g, line).None? {
      OnlyOwnPattern(f, g, value);
    }
    FirstMatchUnique(line, FieldOrder, f, value);
  }

  /** When only f matches, the first match is f's. */
  lemma {:induction false} FirstMatchUnique(line: string, fields: seq<Field>, f: Field, value: string)
    requires f in fields && MatchVar(f, line) == Some(value)
    requires forall g | g in fields && g != f :: MatchVar(g, line).None?
    ensures FirstMatch(line, fields) == Some((f, value))
    decreases |fields|
  {
    if fields[0] != f {
      assert f in fields[1..];
      FirstMatchUnique(line, fields[1..], f, value);
    }
  }

  /** The four values as `auth_vars` holds them; None until a line supplies one. */
  datatype AuthVars = AuthVars(customerId: Option<string>, adpToken: Option<string>, deviceId: Option<string>, deviceType: Option<string>)

  const NoVars := AuthVars(None, None, None, None)

  function Get(v: AuthVars, f: Field): Option<string>
  {
    match f
    case CustomerId => v.customerId
    case AdpToken => v.adpToken
    case DeviceId => v.deviceId
    case DeviceType => v.deviceType
  }

  /** `auth_vars[key] = value`. */
  function Put(v: AuthVars, f: Field, value: string): (r: AuthVars)
    ensures Get(r, f) == Some(value)
    ensures forall g | g != f :: Get(r, g) == Get(v, g)
  {
    match f
    case CustomerId => v.(customerId := Some(value))
    case AdpToken => v.(adpToken := Some(value))
    case DeviceId => v.(deviceId := Some(value))
    case DeviceType => v.(deviceType := Some(value))
  }

  /** `found == len(auth_vars)`. */
  const Needed: nat := 4

  datatype ScanState = ScanState(found: nat, vars: AuthVars)

  /** What each page line contributes, in page order. */
  function Examined(lines: seq<string>): (ex: seq<Option<(Field, string)>>)
    ensures |ex| == |lines| && forall i | 0 <= i < |lines| :: ex[i] == Examine(lines[i])
  {
    seq(|lines|, i requires 0 <= i < |lines| => Examine(lines[i]))
  }

  /** The scan from a given state over what the remaining lines contribute; it stops at 4. */
  function ScanFrom(ex: seq<Option<(Field, string)>>, s: ScanState): ScanState
    decreases |ex|
  {
    if ex == [] || s.found == Needed then s
    else
      match ex[0]
      case None => ScanFrom(ex[1..], s)
      case Some((f, v)) => ScanFrom(ex[1..], ScanState(s.found + 1, Put(s.vars, f, v)))
  }

  /** One line of the scan before it has stopped: a match counts and sets its field. */
  lemma ScanFromStep(ex: seq<Option<(Field, string)>>, s: ScanState)
    requires ex != [] && s.found < Needed
    ensures ex[0].None? ==> ScanFrom(ex, s) == ScanFrom(ex[1..], s)
    ensures ex[0].Some? ==>
      ScanFrom(ex, s) == ScanFrom(ex[1..], ScanState(s.found + 1, Put(s.vars, ex[0].value.0, ex[0].value.1)))
  {
  }

  /** The scan of a whole page. */
  function Scan(lines: seq<string>): ScanState
  {
    ScanFrom(Examined(lines), ScanState(0, NoVars))
  }

  /** The matches among the contributions, in page order. */
  function Matches(ex: seq<Option<(Field, string)>>): (m: seq<(Field, string)>)
    ensures |m| <= |ex|
    decreases |ex|
  {
    if ex == [] then []
    else
      match ex[0]
      case None => Matches(ex[1..])
      case Some(x) => [x] + Matches(ex[1..])
  }

  /** Storing the matches in order, later ones overwriting earlier ones. */
  function Apply(vars: AuthVars, m: seq<(Field, string)>): AuthVars
    decreases |m|
  {
    if m == [] then vars else Apply(Put(vars, m[0].0, m[0].1), m[1..])
  }

  function Min(a: nat, b: nat): nat
  {
    if a <= b then a else b
  }

  lemma {:induction false} ScanFromIsApply(ex: seq<Option<(Field, string)>>, s: ScanState)
    requires s.found <= Needed
    ensures ScanFrom(ex, s).found == s.found + Min(Needed - s.found, |Matches(ex)|)
    ensures ScanFrom(ex, s).vars == Apply(s.vars, Matches(ex)[..Min(Needed - s.found, |Matches(ex)|)])
    decreases |ex|
  {
    if ex != [] && s.found != Needed {
      match ex[0]
      case None =>
        ScanFromIsApply(ex[1..], s);
      case Some(x) =>
        ScanFromIsApply(ex[1..], ScanState(s.found + 1, Put(s.vars, x.0, x.1)));
        var m := Matches(ex[1..]);
        var k := Min(Needed - s.found - 1, |m|);
        assert ([x] + m)[..k + 1] == [x] + m[..k];
        assert ([x] + m[..k])[1..] == m[..k];
    }
  }

  /**
   * The scan counts matching lines, stopping at the fourth: `found` is the number of matching
   * lines up to 4, and the values are those of the first (up to) four matching lines stored in
   * page order, a later line for the same field overwriting an earlier one.
   */
  lemma ScanIsApply(ex: seq<Option<(Field, string)>>)
    ensures ScanFrom(ex, ScanState(0, NoVars)).found == Min(Needed, |Matches(ex)|)
    ensures ScanFrom(ex, ScanState(0, NoVars)).vars == Apply(NoVars, Matches(ex)[..Min(Needed, |Matches(ex)|)])
  {
    ScanFromIsApply(ex, ScanState(0, NoVars));
  }

  lemma {:induction false} MatchesIgnores(pre: seq<Option<(Field, string)>>, post: seq<Option<(Field, string)>>)
    ensures Matches(pre + [None] + post) == Matches(pre + post)
    decreases |pre|
  {
    if pre == [] {
      assert pre + [None] + post == [None] + post;
      assert ([None] + post)[1..] == post;
      assert pre + post == post;
    } else {
      MatchesIgnores(pre[1..], post);
      assert (pre + [None] + post)[1..] == pre[1..] + [None] + post;
      assert (pre + post)[1..] == pre[1..] + post;
      assert (pre + [None] + post)[0] == (pre + post)[0] == pre[0];
    }
  }

  /** A line that no pattern claims can stand anywhere without changing the scan. */
  lemma ScanIgnores(pre: seq<Option<(Field, string)>>, post: seq<Option<(Field, string)>>)
    ensures ScanFrom(pre + [None] + post, ScanState(0, NoVars)) == ScanFrom(pre + post, ScanState(0, NoVars))
  {
    MatchesIgnores(pre, post);
    ScanIsApply(pre + [None] + post);
    ScanIsApply(pre + post);
  }

  /** The value a sequence of matches leaves for a field: that of its last match. */
  lemma {:induction false} ApplyLast(vars: AuthVars, m: seq<(Field, string)>, k: nat)
    requires k < |m|
    requires forall j | k < j < |m| :: m[j].0 != m[k].0
    ensures Get(Apply(vars, m), m[k].0) == Some(m[k].1)
    decreases |m|
  {
    if k == 0 {
      ApplyUntouched(Put(vars, m[0].0, m[0].1), m[1..], m[0].0);
    } else {
      ApplyLast(Put(vars, m[0].0, m[0].1), m[1..], k - 1);
    }
  }

  /** A field no match names keeps its initial value. */
  lemma {:induction false} ApplyUntouched(vars: AuthVars, m: seq<(Field, string)>, f: Field)
    requires forall j | 0 <= j < |m| :: m[j].0 != f
    ensures Get(Apply(vars, m), f) == Get(vars, f)
    decreases |m|
  {
    if m != [] {
      ApplyUntouched(Put(vars, m[0].0, m[0].1), m[1..], f);
    }
  }

  /**
   * Matching lines that name each of the four fields exactly once, in any order and among
   * any number of other lines, yield exactly those four values.
   */
  lemma AllFourOnce(ex: seq<Option<(Field, string)>>)
    requires |Matches(ex)| == 4
    requires forall a, b | 0 <= a < b < 4 :: Matches(ex)[a].0 != Matches(ex)[b].0
    ensures ScanFrom(ex, ScanState(0, NoVars)).found == Needed
    ensures forall k | 0 <= k < 4 :: Get(ScanFrom(ex, ScanState(0, NoVars)).vars, Matches(ex)[k].0) == Some(Matches(ex)[k].1)
  {
    ScanIsApply(ex);
    var m := Matches(ex);
    assert m[..4] == m;
    forall k | 0 <= k < 4 ensures Get(Apply(NoVars, m), m[k].0) == Some(m[k].1) {
      ApplyLast(NoVars, m, k);
    }
  }

  /** Four matches in a row are the matches. */
  lemma MatchesOfFour(ex: seq<Option<(Field, string)>>, m: seq<(Field, string)>)
    requires |ex| == 4 && |m| == 4 && forall k | 0 <= k < 4 :: ex[k] == Some(m[k])
    ensures Matches(ex) == m
  {
    assert Matches(ex[3..]) == [m[3]] by { assert ex[3..][1..] == []; }
    assert Matches(ex[2..]) == [m[2], m[3]] by { assert ex[2..][1..] == ex[3..]; }
    assert Matches(ex[1..]) == [m[1], m[2], m[3]] by { assert ex[1..][1..] == ex[2..]; }
  }

  /** The lines of the four assignments, in the given order of fields. */
  function AssignmentLines(order: seq<Field>, values: seq<string>): (lines: seq<string>)
    requires |values| == |order|
    ensures |lines| == |order| && forall k | 0 <= k < |order| :: lines[k] == Assignment(order[k], values[k])
  {
    seq(|order|, k requires 0 <= k < |order| => Assignment(order[k], values[k]))
  }

  predicate OneLine(v: string)
  {
    forall i | 0 <= i < |v| :: v[i] != '\n'
  }

  /** Each assignment line contributes its own field and value. */
  lemma ExaminedAssignments(order: seq<Field>, values: seq<string>)
    requires |values| == |order|
    requires forall k | 0 <= k < |values| :: OneLine(values[k])
    ensures forall k | 0 <= k < |order| :: Examined(AssignmentLines(order, values))[k] == Some((order[k], values[k]))
  {
    forall k | 0 <= k < |order| ensures Examine(Assignment(order[k], values[k])) == Some((order[k], values[k])) {
      ExamineAssignment(order[k], values[k]);
    }
  }

  /** The four assignment lines, one per field, in any order: each value comes back. */
  lemma FourAssignments(order: seq<Field>, values: seq<string>)
    requires |values| == 4 && |order| == 4
    requires forall a, b | 0 <= a < b < 4 :: order[a] != order[b]
    requires forall k | 0 <= k < 4 :: OneLine(values[k])
    ensures Scan(AssignmentLines(order, values)).found == Needed
    ensures forall k | 0 <= k < 4 :: Get(Scan(AssignmentLines(order, values)).vars, order[k]) == Some(values[k])
  {
    var ex := Examined(AssignmentLines(order, values));
    ExaminedAssignments(order, values);
    var m := seq(4, k requires 0 <= k < 4 => (order[k], values[k]));
    MatchesOfFour(ex, m);
    AllFourOnce(ex);
  }

  /**
   * `found` counts lines, not fields: four customerId lines reach 4 and stop the scan while
   * the adp token is still None, and authentication then reports success.
   */
  lemma DuplicateLinesQuirk(order: seq<Field>, values: seq<string>)
    requires |order| == 4 && |values| == 4
    requires forall k | 0 <= k < 4 :: order[k] == CustomerId && OneLine(values[k])
    ensures Scan(AssignmentLines(order, values)).found == Needed
    ensures Scan(AssignmentLines(order, values)).vars.adpToken.None?
  {
    var ex := Examined(AssignmentLines(order, values));
    ExaminedAssignments(order, values);
    var m := seq(4, k requires 0 <= k < 4 => (order[k], values[k]));
    MatchesOfFour(ex, m);
    ScanIsApply(ex);
    assert m[..4] == m;
    ApplyUntouched(NoVars, m, AdpToken);
  }

  /** The inner loop of the scan: the patterns in `vars_map` order, the first match wins. */
  method MatchLine(line: string) returns (r: Option<(Field, string)>)
    ensures r == FirstMatch(line, FieldOrder)
    ensures r.Some? ==> MatchVar(r.value.0, line) == Some(r.value.1)
    ensures r.None? <==> forall f | f in FieldOrder :: MatchVar(f, line).None?
  {
    FirstMatchSpec(line, FieldOrder);
    var j := 0;
    while j < |FieldOrder|
      invariant 0 <= j <= |FieldOrder|
      invariant FirstMatch(line, FieldOrder) == FirstMatch(line, FieldOrder[j..])
    {
      assert FieldOrder[j..][0] == FieldOrder[j] && FieldOrder[j..][1..] == FieldOrder[j + 1..];
      var m := MatchVar(FieldOrder[j], line);
      if m.Some? {
        return Some((FieldOrder[j], m.value));
      }
      j := j + 1;
    }
    return None;
  }

  /** One line of the scan: strip it, try the patterns only on an `amznMusic.` line. */
  method ExamineLine(raw: string) returns (m: Option<(Field, string)>)
    ensures m == Examine(raw)
    ensures m.Some? ==> StartsWith(Strip(raw), "amznMusic.") && MatchVar(m.value.0, Strip(raw)) == Some(m.value.1)
  {
    var line := Strip(raw);
    if StartsWith(line, "amznMusic.") {
      m := MatchLine(line);
    } else {
      m := None;
    }
  }

  /**
   * The scan loop of `authenticate`: each line is stripped, only `amznMusic.` lines are tried,
   * the first matching pattern wins and counts once, and the loop stops at four.
   */
  method ScanLines(lines: seq<string>) returns (found: nat, vars: AuthVars)
    ensures ScanState(found, vars) == Scan(lines)
    ensures found == Min(Needed, |Matches(Examined(lines))|)
  {
    ghost var ex := Examined(lines);
    ghost var target := ScanFrom(ex, ScanState(0, NoVars));
    found, vars := 0, NoVars;
    var i := 0;
    while i < |lines|
      invariant 0 <= i <= |lines| && found < Needed
      invariant target == ScanFrom(ex[i..], ScanState(found, vars))
    {
      ghost var rest := ex[i..];
      assert rest[0] == ex[i] && rest[1..] == ex[i + 1..];
      ScanFromStep(rest, ScanState(found, vars));
      var m := ExamineLine(lines[i]);
      if m.Some? {
        found := found + 1;
        vars := Put(vars, m.value.0, m.value.1);
        if found == Needed {
          ScanIsApply(ex);
          return;
        }
      }
      i := i + 1;
    }
    ScanIsApply(ex);
  }

  /** One cookie of the session's cookie jar. */
  datatype Cookie = Cookie(name: string, value: string)

  /** `'; '.join(parts)`. */
  function Join(parts: seq<string>): string
    decreases |parts|
  {
    if parts == [] then ""
    else if |parts| == 1 then parts[0]
    else parts[0] + "; " + Join(parts[1..])
  }

  /** The `name=value` pairs of the jar, in jar order. */
  function CookiePairs(jar: seq<Cookie>): (r: seq<string>)
    ensures |r| == |jar|
    ensures forall i | 0 <= i < |jar| :: r[i] == jar[i].name + "=" + jar[i].value
  {
    seq(|jar|, i requires 0 <= i < |jar| => jar[i].name + "=" + jar[i].value)
  }

  /** The Cookie header value the client sends on every call. */
  function CookieHeader(jar: seq<Cookie>): string
  {
    Join(CookiePairs(jar))
  }

  /** The first position of `; ` in s, if any. */
  function FindSep(s: string): (r: Option<nat>)
    ensures r.Some? ==> r.value + 2 <= |s| && s[r.value..r.value + 2] == "; "
    ensures r.Some? ==> forall i | 0 <= i < r.value :: s[i] != ';'
    decreases |s|
  {
    if |s| < 2 then None
    else if s[..2] == "; " then Some(0)
    else match FindSep(s[1..])
      case None => None
      case Some(i) => if s[0] == ';' then None else Some(i + 1)
  }

  /** Splits a header on `; `, the inverse of Join for parts without `;`. */
  function Split(s: string): seq<string>
    decreases |s|
  {
    match FindSep(s)
    case None => [s]
    case Some(i) => [s[..i]] + Split(s[i + 2..])
  }

  predicate NoSemicolon(s: string)
  {
    forall i | 0 <= i < |s| :: s[i] != ';'
  }

  lemma {:induction false} FindSepAfter(x: string, rest: string)
    requires NoSemicolon(x)
    ensures FindSep(x + "; " + rest) == Some(|x|)
    decreases |x|
  {
    var s := x + "; " + rest;
    if x == [] {
      assert s[..2] == "; ";
    } else {
      assert s[..2] != "; " by { assert s[0] == x[0] != ';'; }
      assert s[1..] == x[1..] + "; " + rest;
      FindSepAfter(x[1..], rest);
    }
  }

  lemma {:induction false} FindSepNone(x: string)
    requires NoSemicolon(x)
    ensures FindSep(x) == None
    decreases |x|
  {
    if |x| >= 2 {
      assert x[..2] != "; " by { assert x[0] != ';'; }
      FindSepNone(x[1..]);
    }
  }

  /** Splitting the joined parts gives the parts back, when no part holds `;`. */
  lemma {:induction false} SplitJoin(parts: seq<string>)
    requires parts != []
    requires forall i | 0 <= i < |parts| :: NoSemicolon(parts[i])
    ensures Split(Join(parts)) == parts
    decreases |parts|
  {
    if |parts| == 1 {
      FindSepNone(parts[0]);
    } else {
      var x, tail := parts[0], parts[1..];
      var rest := Join(tail);
      var s := x + "; " + rest;
      assert Join(parts) == s;
      FindSepAfter(x, rest);
      assert s[..|x|] == x && s[|x| + 2..] == rest;
      assert Split(s) == [x] + Split(rest);
      assert forall i | 0 <= i < |tail| :: tail[i] == parts[i + 1];
      SplitJoin(tail);
      assert parts == [x] + tail;
    }
  }

  /** The header lists every cookie of the jar as `name=value`, and is empty only for an empty jar. */
  lemma CookieHeaderPairs(jar: seq<Cookie>)
    requires forall i | 0 <= i < |jar| :: NoSemicolon(jar[i].name) && NoSemicolon(jar[i].value)
    ensures jar == [] <==> CookieHeader(jar) == ""
    ensures jar != [] ==> Split(CookieHeader(jar)) == CookiePairs(jar)
  {
    var p := CookiePairs(jar);
    if jar != [] {
      forall i | 0 <= i < |p| ensures NoSemicolon(p[i]) {
        var q := p[i];
        assert q == jar[i].name + "=" + jar[i].value;
        forall k | 0 <= k < |q| ensures q[k] != ';' {
          if k < |jar[i].name| {
            assert q[k] == jar[i].name[k];
          } else if k > |jar[i].name| {
            assert q[k] == jar[i].value[k - |jar[i].name| - 1];
          }
        }
      }
      SplitJoin(p);
      JoinNonEmpty(p);
    }
  }

  lemma JoinNonEmpty(parts: seq<string>)
    requires parts != [] && parts[0] != ""
    ensures Join(parts) != ""
  {
    if |parts| > 1 {
      assert |Join(parts)| >= |parts[0]|;
    }
  }
}
