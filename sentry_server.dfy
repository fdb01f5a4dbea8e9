/** The server-side `beforeSend` hook: drop events whose first exception
    message mentions a secret, strip credential headers from the request
    and mask the values of credential parameters in its query string. */
module SentryServer {
  import opened Common
  import opened SentryEvents

  /** The words whose presence in the first exception message drops the
      event, compared case-sensitively. */
  const SensitiveWords: seq<string> := ["password", "token", "key", "secret"]

  // ---------------------------------------------------------------------
  // Header deletion

  /** `delete headers[name]` for these exact (case-sensitive) names. */
  const SensitiveHeaders: set<string> := {"authorization", "cookie", "x-api-key"}

  /** The headers without the credential ones; every other header keeps
      its value. */
  function WithoutSensitiveHeaders(h: map<string, string>): (r: map<string, string>)
    ensures forall k :: k in r <==> k in h && k !in SensitiveHeaders
    ensures forall k :: k in r ==> r[k] == h[k]
  {
    h - SensitiveHeaders
  }

  /** Deleting the headers a second time removes nothing more. */
  lemma WithoutSensitiveHeadersIdempotent(h: map<string, string>)
    ensures WithoutSensitiveHeaders(WithoutSensitiveHeaders(h)) == WithoutSensitiveHeaders(h)
  {
  }

  // ---------------------------------------------------------------------
  // Query-string redaction:
  // `q.replace(/([?&])(password|token|key|secret)=[^&]*/gi, '$1$2=***')`

  /** The parameter names the pattern lists, in its alternation order. */
  const SensitiveParams: seq<string> := ["password", "token", "key", "secret"]

  predicate IsSeparator(c: char) {
    c == '?' || c == '&'
  }

  /** `c` is `lower` or, when `lower` is a lower-case ASCII letter, its
      capital: the comparison of the `i` flag without the `u` flag, which
      never pairs a non-ASCII character with an ASCII one. */
  predicate SameLetter(c: char, lower: char) {
    c == lower || ('a' <= lower <= 'z' && c as int == lower as int - 32)
  }

  /** `t` starts with `p` when letters are compared without regard to case
      (`p` is written in lower case). */
  predicate StartsWithCaseless(t: string, p: string) {
    |p| <= |t| && forall i :: 0 <= i < |p| ==> SameLetter(t[i], p[i])
  }

  /** `name` is `w` up to letter case. */
  predicate SameName(name: string, w: string) {
    |name| == |w| && StartsWithCaseless(name, w)
  }

  /** The first of `names` that, followed by `=`, starts `t` when letter
      case is ignored: where the pattern's alternation and the `=` match. */
  function FirstParam(t: string, names: seq<string>): (r: Option<string>)
    ensures r.Some? ==> r.value in names && StartsWithCaseless(t, r.value + "=")
    ensures r.None? ==> forall w :: w in names ==> !StartsWithCaseless(t, w + "=")
    decreases |names|
  {
    if names == [] then None
    else if StartsWithCaseless(t, names[0] + "=") then Some(names[0])
    else FirstParam(t, names[1..])
  }

  /** The sensitive name whose `name=` follows a separator at the start of
      `s`, if any: where the pattern's first two groups match. */
  function ParamAt(s: string): (r: Option<string>)
    ensures r.Some? ==>
      r.value in SensitiveParams && |s| >= 1 && IsSeparator(s[0]) &&
      StartsWithCaseless(s[1..], r.value + "=")
    ensures r.None? && |s| >= 1 && IsSeparator(s[0]) ==>
      forall w :: w in SensitiveParams ==> !StartsWithCaseless(s[1..], w + "=")
  {
    if |s| == 0 || !IsSeparator(s[0]) then None else FirstParam(s[1..], SensitiveParams)
  }

  /** Length of `[^&]*` at the start of `t`: the value runs to the next `&`. */
  function ValueLength(t: string): (n: nat)
    ensures n <= |t|
    ensures forall i :: 0 <= i < n ==> t[i] != '&'
    ensures n < |t| ==> t[n] == '&'
  {
    if t == [] || t[0] == '&' then 0 else 1 + ValueLength(t[1..])
  }

  /** How much of `s` one step of the replacement consumes: the whole
      match `[?&]name=value` where a sensitive name matches, otherwise one
      character. */
  function Consumed(s: string): (n: nat)
    requires s != []
    ensures 1 <= n <= |s|
  {
    match ParamAt(s)
    case Some(w) => 2 + |w| + ValueLength(s[2 + |w|..])
    case None => 1
  }

  /** What one step writes: the separator and the name as written followed
      by `=***` (`'$1$2=***'`) for a match, otherwise the character itself. */
  function Written(s: string): (r: string)
    requires s != []
    ensures r != [] && r[0] == s[0]
  {
    match ParamAt(s)
    case Some(w) => s[..1 + |w|] + "=***"
    case None => [s[0]]
  }

  /** The global replacement, scanning left to right and continuing after
      each match. */
  function Redact(s: string): (r: string)
    decreases |s|
  {
    if s == [] then [] else Written(s) + Redact(s[Consumed(s)..])
  }

  // ---------------------------------------------------------------------
  // The scanner

  /** Compares `p` with `s` from index `start` on, ignoring letter case. */
  method MatchesCaselessAt(s: string, start: nat, p: string) returns (b: bool)
    requires start <= |s|
    ensures b == StartsWithCaseless(s[start..], p)
  {
    if |s| - start < |p| {
      return false;
    }
    var k := 0;
    while k < |p|
      invariant 0 <= k <= |p|
      invariant forall i :: 0 <= i < k ==> SameLetter(s[start + i], p[i])
    {
      if !SameLetter(s[start + k], p[k]) {
        return false;
      }
      k := k + 1;
    }
    return true;
  }

  /** The separator test and the name comparisons, in order, at index `i`. */
  method FindParamAt(s: string, i: nat) returns (w: Option<string>)
    requires i < |s|
    ensures w == ParamAt(s[i..])
  {
    if !IsSeparator(s[i]) {
      return None;
    }
    assert s[i..][1..] == s[i + 1..];
    assert SensitiveParams[0..] == SensitiveParams;
    var k := 0;
    while k < |SensitiveParams|
      invariant 0 <= k <= |SensitiveParams|
      invariant FirstParam(s[i + 1..], SensitiveParams[k..]) == ParamAt(s[i..])
    {
      var b := MatchesCaselessAt(s, i + 1, SensitiveParams[k] + "=");
      if b {
        return Some(SensitiveParams[k]);
      }
      assert SensitiveParams[k..][1..] == SensitiveParams[k + 1..];
      k := k + 1;
    }
    return None;
  }

  /** A value with no `&` before index `n`, ended by `&` or the end of the
      text at `n`, has length `n`. */
  lemma {:induction false} ValueEnd(t: string, n: nat)
    requires n <= |t|
    requires forall i :: 0 <= i < n ==> t[i] != '&'
    requires n == |t| || t[n] == '&'
    ensures ValueLength(t) == n
    decreases n
  {
    if n > 0 {
      ValueEnd(t[1..], n - 1);
    }
  }

  /** The step the scanner takes at index `i` where `w` matches and the
      value, starting at `n`, runs to `j`. */
  lemma ScanMatch(s: string, i: nat, w: string, n: nat, j: nat)
    requires i < |s| && ParamAt(s[i..]) == Some(w)
    requires n == i + 2 + |w| <= |s| && j == n + ValueLength(s[n..])
    ensures Written(s[i..]) == s[i..i + 1 + |w|] + "=***"
    ensures i + Consumed(s[i..]) == j
  {
    var t := s[i..];
    assert t[n - i..] == s[n..];
    assert t[..1 + |w|] == s[i..i + 1 + |w|];
  }

  /** Skips the value `[^&]*` that starts at `n`. */
  method SkipValue(s: string, n: nat) returns (j: nat)
    requires n <= |s|
    ensures j == n + ValueLength(s[n..])
  {
    j := n;
    while j < |s| && s[j] != '&'
      invariant n <= j <= |s|
      invariant forall k :: n <= k < j ==> s[k] != '&'
    {
      j := j + 1;
    }
    ValueEnd(s[n..], j - n);
  }

  /** The step the scanner takes at index `i` where nothing matches. */
  lemma ScanCopy(s: string, i: nat)
    requires i < |s| && ParamAt(s[i..]).None?
    ensures Written(s[i..]) == [s[i]]
    ensures i + Consumed(s[i..]) == i + 1
  {
  }

  /** One step of `Redact` on a non-empty text. */
  lemma RedactUnfold(t: string)
    requires t != []
    ensures Redact(t) == Written(t) + Redact(t[Consumed(t)..])
  {
  }

  lemma MaskJoin(p: string, later: string)
    ensures p + "=" + "***" + later == (p + "=***") + later
  {
    assert "=" + "***" == "=***";
  }

  /** The scanner resumes at the index where one step of `Redact` ends. */
  lemma ScanSuffix(s: string, i: nat, next: nat)
    requires i < |s| && next == i + Consumed(s[i..])
    ensures next <= |s| && s[next..] == s[i..][Consumed(s[i..])..]
  {
    assert s[i..][Consumed(s[i..])..] == s[i + Consumed(s[i..])..];
  }

  /** Appending one step's output keeps the scanner's invariant, that
      the output so far followed by the redaction of the rest is `whole`. */
  lemma ScanStep(t: string, r: string, whole: string, piece: string, rest: string)
    requires t != [] && r + Redact(t) == whole
    requires piece == Written(t) && rest == t[Consumed(t)..]
    ensures (r + piece) + Redact(rest) == whole
  {
    RedactUnfold(t);
    SplitAt(r, piece, Redact(rest));
  }

  /** One step of the scanner at index `i`: the separator, the name as
      written and `=***` for a match, whose value is skipped up to the next
      `&`; otherwise the character at `i`. */
  method ScanAt(s: string, i: nat) returns (piece: string, next: nat)
    requires i < |s|
    ensures piece == Written(s[i..]) && next == i + Consumed(s[i..])
  {
    var w := FindParamAt(s, i);
    if w.Some? {
      var n := i + 2 + |w.value|;
      assert n <= |s| by {
        assert StartsWithCaseless(s[i..][1..], w.value + "=");
      }
      var j := SkipValue(s, n);
      ScanMatch(s, i, w.value, n, j);
      piece, next := s[i..i + 1 + |w.value|] + "=***", j;
    } else {
      ScanCopy(s, i);
      piece, next := [s[i]], i + 1;
    }
  }

  /** The replacement as a scanner over the query string: at each index
      either a match is rewritten and skipped, or one character is copied. */
  method RedactQuery(s: string) returns (r: string)
    ensures r == Redact(s)
  {
    r := [];
    var i := 0;
    while i < |s|
      invariant 0 <= i <= |s|
      invariant r + Redact(s[i..]) == Redact(s)
      decreases |s| - i
    {
      var piece, next := ScanAt(s, i);
      ScanSuffix(s, i, next);
      ScanStep(s[i..], r, Redact(s), piece, s[next..]);
      r := r + piece;
      i := next;
    }
  }

  lemma SplitAt(a: string, b: string, c: string)
    ensures a + (b + c) == (a + b) + c
  {
  }

  // ---------------------------------------------------------------------
  // Properties of the redaction

  /** The first character is kept. */
  lemma RedactKeepsHead(s: string)
    requires s != []
    ensures Redact(s) != [] && Redact(s)[0] == s[0]
  {
  }

  /** Where no name matches, one character is copied. */
  lemma RedactCopies(s: string)
    requires s != [] && ParamAt(s).None?
    ensures Redact(s) == [s[0]] + Redact(s[1..])
  {
  }

  /** Comparing from the first character on is comparing it and then the
      rest. */
  lemma StartsWithCaselessCons(t: string, p: string)
    requires t != [] && p != []
    ensures StartsWithCaseless(t, p) <==> SameLetter(t[0], p[0]) && StartsWithCaseless(t[1..], p[1..])
  {
    if SameLetter(t[0], p[0]) && StartsWithCaseless(t[1..], p[1..]) {
      forall i | 0 <= i < |p| ensures SameLetter(t[i], p[i]) {
        if i > 0 {
          assert t[i] == t[1..][i - 1] && p[i] == p[1..][i - 1];
        }
      }
    }
  }

  /** A start that contains no separator survives the redaction: the
      redaction only changes what follows a separator. */
  lemma {:induction false} RedactKeepsPrefix(s: string, p: string)
    requires forall i :: 0 <= i < |p| ==> !IsSeparator(p[i])
    ensures StartsWithCaseless(Redact(s), p) <==> StartsWithCaseless(s, p)
    decreases |s|
  {
    if p != [] && s != [] {
      RedactKeepsHead(s);
      if IsSeparator(s[0]) {
        assert !SameLetter(s[0], p[0]);
      } else {
        RedactCopies(s);
        RedactKeepsPrefix(s[1..], p[1..]);
        StartsWithCaselessCons(s, p);
        StartsWithCaselessCons(Redact(s), p);
        assert Redact(s)[1..] == Redact(s[1..]);
      }
    }
  }

  /** Which of `names` starts the text is the same before and after
      redacting it, for names that contain no separator. */
  lemma {:induction false} FirstParamRedact(s: string, names: seq<string>)
    requires forall j, c :: 0 <= j < |names| && 0 <= c < |names[j]| ==> !IsSeparator(names[j][c])
    ensures FirstParam(Redact(s), names) == FirstParam(s, names)
    decreases |names|
  {
    if names != [] {
      var p := names[0] + "=";
      assert forall c :: 0 <= c < |p| ==> !IsSeparator(p[c]) by {
        forall c | 0 <= c < |p| ensures !IsSeparator(p[c]) {
          if c < |names[0]| {
            assert p[c] == names[0][c];
          }
        }
      }
      RedactKeepsPrefix(s, p);
      FirstParamRedact(s, names[1..]);
    }
  }

  /** In particular for the four sensitive names. */
  lemma ParamAfterRedact(s: string)
    ensures FirstParam(Redact(s), SensitiveParams) == FirstParam(s, SensitiveParams)
  {
    FirstParamRedact(s, SensitiveParams);
  }

  /** At most one sensitive name can follow a separator: no `name=` is a
      caseless prefix of another. */
  lemma ParamUnique(t: string, v: string, w: string)
    requires v in SensitiveParams && w in SensitiveParams
    requires StartsWithCaseless(t, v + "=") && StartsWithCaseless(t, w + "=")
    ensures v == w
  {
    assert SameLetter(t[0], (v + "=")[0]) && SameLetter(t[0], (w + "=")[0]);
  }

  /** The step at `[sep] + name + "=" + value + rest`, for a sensitive
      `name` in any letter case, a value without `&` and a rest that is
      empty or starts with `&`: it writes the separator, the name and
      `=***` and consumes exactly the parameter. */
  lemma MatchStep(sep: char, name: string, w: string, value: string, rest: string)
    requires IsSeparator(sep)
    requires w in SensitiveParams && SameName(name, w)
    requires forall i :: 0 <= i < |value| ==> value[i] != '&'
    requires rest == [] || rest[0] == '&'
    ensures var s := [sep] + name + "=" + value + rest;
      && Written(s) == [sep] + name + "=***"
      && Consumed(s) == 2 + |name| + |value|
      && s[Consumed(s)..] == rest
  {
    var s := [sep] + name + "=" + value + rest;
    assert s == [sep] + name + "=" + (value + rest);
    NameMatches(sep, name, w, value + rest);
    var n := 2 + |w|;
    assert s[n..] == value + rest;
    ValueEnd(value + rest, |value|);
    assert s[..1 + |w|] == [sep] + name;
    assert s[n + |value|..] == rest;
  }

  /** A separator, a sensitive name in any letter case and `=` start a
      match of that name. */
  lemma NameMatches(sep: char, name: string, w: string, tail: string)
    requires IsSeparator(sep)
    requires w in SensitiveParams && SameName(name, w)
    ensures ParamAt([sep] + name + "=" + tail) == Some(w)
  {
    var s := [sep] + name + "=" + tail;
    assert StartsWithCaseless(s[1..], w + "=") by {
      forall i | 0 <= i < |w| + 1 ensures SameLetter(s[1..][i], (w + "=")[i]) {
        if i < |w| {
          assert s[1..][i] == name[i];
        } else {
          assert s[1..][i] == '=';
        }
      }
    }
    var m := ParamAt(s);
    if m.Some? {
      ParamUnique(s[1..], m.value, w);
    }
  }

  /** A sensitive parameter, whatever the letter case of its name, keeps
      its separator and name and gets `***` as its value, up to the next
      `&`. */
  lemma RedactsParam(sep: char, name: string, w: string, value: string, rest: string)
    requires IsSeparator(sep)
    requires w in SensitiveParams && SameName(name, w)
    requires forall i :: 0 <= i < |value| ==> value[i] != '&'
    requires rest == [] || rest[0] == '&'
    ensures Redact([sep] + name + "=" + value + rest) == [sep] + name + "=***" + Redact(rest)
  {
    MatchStep(sep, name, w, value, rest);
  }

  /** Where a sensitive name matches, the step writes the separator, the
      name as written and `=***`, and what follows the consumed part is
      empty or starts with the `&` that ended the value. */
  lemma MatchShape(s: string, w: string)
    requires s != [] && ParamAt(s) == Some(w)
    ensures SameName(s[1..1 + |w|], w)
    ensures Written(s) == [s[0]] + s[1..1 + |w|] + "=***"
    ensures var rest := s[Consumed(s)..]; rest == [] || rest[0] == '&'
  {
    MatchedName(s, w);
    assert s[..1 + |w|] == [s[0]] + s[1..1 + |w|];
    MatchedRest(s, w);
  }

  /** The name a match covers is the sensitive name up to letter case. */
  lemma MatchedName(s: string, w: string)
    requires s != [] && ParamAt(s) == Some(w)
    ensures SameName(s[1..1 + |w|], w)
  {
    var name := s[1..1 + |w|];
    assert StartsWithCaseless(s[1..], w + "=");
    forall i | 0 <= i < |w| ensures SameLetter(name[i], w[i]) {
      assert name[i] == s[1..][i];
      assert (w + "=")[i] == w[i];
    }
  }

  /** What follows a match is empty or starts with the `&` ending its value. */
  lemma MatchedRest(s: string, w: string)
    requires s != [] && ParamAt(s) == Some(w)
    ensures var rest := s[Consumed(s)..]; rest == [] || rest[0] == '&'
  {
    var n := 2 + |w|;
    var k := ValueLength(s[n..]);
    assert Consumed(s) == n + k;
    if n + k < |s| {
      assert s[n + k] == s[n..][k];
    }
  }

  /** The replacement is idempotent: redacting a redacted query string
      changes nothing, since a masked value is `***` and stops at the `&`
      where the original value stopped. */
  lemma {:induction false} RedactIdempotent(s: string)
    ensures Redact(Redact(s)) == Redact(s)
    decreases |s|
  {
    if s != [] {
      var rest := s[Consumed(s)..];
      RedactIdempotent(rest);
      if ParamAt(s).Some? {
        IdempotentAtMatch(s, ParamAt(s).value);
      } else {
        IdempotentAtCopy(s);
      }
    }
  }

  /** The inductive step of `RedactIdempotent` where a name matches: the
      rewritten parameter is matched again and rewritten to itself. */
  lemma IdempotentAtMatch(s: string, w: string)
    requires s != [] && ParamAt(s) == Some(w)
    requires Redact(Redact(s[Consumed(s)..])) == Redact(s[Consumed(s)..])
    ensures Redact(Redact(s)) == Redact(s)
  {
    var rest := s[Consumed(s)..];
    RedactUnfold(s);
    MatchShape(s, w);
    if rest != [] {
      RedactKeepsHead(rest);
    }
    MaskedAgain(s[0], s[1..1 + |w|], w, Redact(rest));
  }

  /** A masked parameter followed by text that is empty or starts with
      `&` and that redaction leaves alone is left alone. */
  lemma MaskedAgain(sep: char, name: string, w: string, later: string)
    requires IsSeparator(sep) && w in SensitiveParams && SameName(name, w)
    requires later == [] || later[0] == '&'
    requires Redact(later) == later
    ensures Redact([sep] + name + "=***" + later) == [sep] + name + "=***" + later
  {
    RedactsParam(sep, name, w, "***", later);
    MaskJoin([sep] + name, later);
  }

  /** The inductive step of `RedactIdempotent` where nothing matches: the
      copied character still starts no match. */
  lemma IdempotentAtCopy(s: string)
    requires s != [] && ParamAt(s).None?
    requires Redact(Redact(s[1..])) == Redact(s[1..])
    ensures Redact(Redact(s)) == Redact(s)
  {
    assert s == [s[0]] + s[1..];
    CopyAgain(s[0], s[1..]);
  }

  /** A character that starts no match, followed by text whose redaction
      is idempotent. */
  lemma CopyAgain(c: char, x: string)
    requires ParamAt([c] + x).None?
    requires Redact(Redact(x)) == Redact(x)
    ensures Redact(Redact([c] + x)) == Redact([c] + x)
  {
    var later := Redact(x);
    RedactCons(c, x);
    ParamAfterRedact(x);
    ParamAtCons(c, later, x);
    RedactCons(c, later);
  }

  /** Where `[c] + x` starts no match, its redaction is `c` and that of `x`. */
  lemma RedactCons(c: char, x: string)
    requires ParamAt([c] + x).None?
    ensures Redact([c] + x) == [c] + Redact(x)
  {
    assert ([c] + x)[1..] == x;
  }

  /** Whether a match starts at `c` depends only on which name starts what
      follows it. */
  lemma ParamAtCons(c: char, x: string, y: string)
    requires FirstParam(x, SensitiveParams) == FirstParam(y, SensitiveParams)
    ensures ParamAt([c] + x) == ParamAt([c] + y)
  {
    assert ([c] + x)[1..] == x && ([c] + y)[1..] == y;
  }

  /** Text where no separator starts a sensitive `name=` is left as is:
      other names, and names not after `?` or `&`, are untouched. */
  lemma {:induction false} RedactUnchangedWithoutMatch(s: string)
    requires forall i :: 0 <= i < |s| ==> ParamAt(s[i..]).None?
    ensures Redact(s) == s
    decreases |s|
  {
    if s != [] {
      assert ParamAt(s[0..]).None?;
      assert s[0..] == s;
      forall i | 0 <= i < |s[1..]| ensures ParamAt(s[1..][i..]).None? {
        assert s[1..][i..] == s[i + 1..];
      }
      RedactUnchangedWithoutMatch(s[1..]);
    }
  }

  /** In particular a query string with no `?` or `&` is left as is. */
  lemma RedactWithoutSeparator(s: string)
    requires forall i :: 0 <= i < |s| ==> !IsSeparator(s[i])
    ensures Redact(s) == s
  {
    forall i | 0 <= i < |s| ensures ParamAt(s[i..]).None? {
      assert s[i..][0] == s[i];
    }
    RedactUnchangedWithoutMatch(s);
  }

  /** The query string after the hook: only a non-empty one is rewritten. */
  function ScrubbedQuery(q: Option<string>): (r: Option<string>)
    ensures q.None? || q.value == [] ==> r == q
    ensures q.Some? && q.value != [] ==> r == Some(Redact(q.value))
  {
    if q.Some? && q.value != [] then Some(Redact(q.value)) else q
  }

  // ---------------------------------------------------------------------
  // The event and the hook

  /** `event.request`: its header object and query string are updated in
      place by the hook. */
  class SentryRequest {
    var headers: Option<map<string, string>>
    var queryString: Option<string>

    constructor (headers: Option<map<string, string>>, queryString: Option<string>)
      ensures this.headers == headers && this.queryString == queryString
    {
      this.headers := headers;
      this.queryString := queryString;
    }
  }

  class SentryEvent {
    var exception: Option<ExceptionInfo>
    var request: SentryRequest?

    constructor (exception: Option<ExceptionInfo>, request: SentryRequest?)
      ensures this.exception == exception && this.request == request
    {
      this.exception := exception;
      this.request := request;
    }
  }

  /** `beforeSend(event)`: `null` when the first exception message
      mentions a sensitive word, the request left alone; otherwise the same
      event, its request's credential headers deleted and its query
      string's credential values masked. */
  method BeforeSend(event: SentryEvent) returns (r: SentryEvent?)
    modifies event.request
    ensures Sensitive(event.exception, SensitiveWords) ==> r == null
    ensures Sensitive(event.exception, SensitiveWords) && event.request != null ==>
      unchanged(event.request)
    ensures !Sensitive(event.exception, SensitiveWords) ==> r == event
    ensures !Sensitive(event.exception, SensitiveWords) && event.request != null ==>
      event.request.headers ==
        (if old(event.request.headers).Some?
         then Some(WithoutSensitiveHeaders(old(event.request.headers).value))
         else None)
    ensures !Sensitive(event.exception, SensitiveWords) && event.request != null ==>
      event.request.queryString == ScrubbedQuery(old(event.request.queryString))
  {
    if Sensitive(event.exception, SensitiveWords) {
      return null;
    }
    var request := event.request;
    if request != null {
      if request.headers.Some? {
        var h := request.headers.value;
        h := h - {"authorization"};
        h := h - {"cookie"};
        h := h - {"x-api-key"};
        assert h == WithoutSensitiveHeaders(request.headers.value);
        request.headers := Some(h);
      }
      if request.queryString.Some? && request.queryString.value != [] {
        var q := RedactQuery(request.queryString.value);
        request.queryString := Some(q);
      }
    }
    return event;
  }

  /** The drop test fires on each of the four words. */
  lemma SensitiveOnEachWord(exception: Option<ExceptionInfo>)
    requires FirstMessage(exception).Some?
    ensures var m := FirstMessage(exception).value;
      Sensitive(exception, SensitiveWords) <==>
        Contains(m, "password") || Contains(m, "token") || Contains(m, "key") || Contains(m, "secret")
  {
    var m := FirstMessage(exception).value;
    if Contains(m, "key") {
      assert "key" in SensitiveWords;
    }
    if Contains(m, "secret") {
      assert "secret" in SensitiveWords;
    }
  }
}
