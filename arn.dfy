/**
  The certificate ARN is read from the notification text with the regular
  expression /PhysicalResourceId='(.+)'\n/ (no flags). In a JavaScript
  regular expression without the `s` flag, `.` matches every character except
  the four line terminators, so the greedy `(.+)` can only stop on the line it
  started on, and `'\n` must close that line.
*/
module ArnExtraction {
  import opened Wrappers
  import opened Text

  /** The literal text the pattern starts with. */
  const Marker: string := "PhysicalResourceId='"

  predicate IsLineTerminator(c: char) {
    c == '\n' || c == '\r' || c == '\U{2028}' || c == '\U{2029}'
  }

  /** Every character of `c` is matched by `.`. */
  predicate OnOneLine(c: string) {
    forall k :: 0 <= k < |c| ==> !IsLineTerminator(c[k])
  }

  /** The pattern matches `s` at index `p` with `c` as its capture group. */
  predicate MatchesAt(s: string, p: int, c: string) {
    OccursAt(s, Marker, p) && |c| > 0 && OnOneLine(c) && OccursAt(s, c + "'\n", p + |Marker|)
  }

  /** The part of a successful `exec` result that the handler uses: `index` and `[1]`. */
  datatype RegexMatch = RegexMatch(index: nat, capture: string)

  /** The index of the first line terminator at or after `from`, or `|s|`. */
  function LineEnd(s: string, from: nat): (t: nat)
    requires from <= |s|
    ensures from <= t <= |s|
    ensures forall k :: from <= k < t ==> !IsLineTerminator(s[k])
    ensures t < |s| ==> IsLineTerminator(s[t])
    decreases |s| - from
  {
    if from == |s| || IsLineTerminator(s[from]) then from else LineEnd(s, from + 1)
  }

  /**
    What `(.+)'\n` captures when tried at index `start`: greedy `.+` runs to the
    end of the line and backs off; the only place `'\n` can then follow is the
    last character of the line, when the line ends with a `\n`.
  */
  function CaptureAt(s: string, start: nat): Option<string>
    requires start <= |s|
  {
    var t := LineEnd(s, start);
    if t < |s| && s[t] == '\n' && start + 2 <= t && s[t - 1] == '\'' then Some(s[start..t - 1])
    else None
  }

  /** LineEnd finds the first line terminator. */
  lemma {:induction false} LineEndIsFirstTerminator(s: string, from: nat, t: nat)
    requires from <= t < |s| && IsLineTerminator(s[t])
    requires forall k :: from <= k < t ==> !IsLineTerminator(s[k])
    ensures LineEnd(s, from) == t
    decreases t - from
  {
    if from < t {
      LineEndIsFirstTerminator(s, from + 1, t);
    }
  }

  /** A capture found by CaptureAt is a match of the pattern. */
  lemma CaptureAtSound(s: string, p: nat)
    requires OccursAt(s, Marker, p)
    requires CaptureAt(s, p + |Marker|).Some?
    ensures MatchesAt(s, p, CaptureAt(s, p + |Marker|).value)
  {
    var start := p + |Marker|;
    var t := LineEnd(s, start);
    var c := s[start..t - 1];
    assert OnOneLine(c) by {
      forall k | 0 <= k < |c| ensures !IsLineTerminator(c[k]) {
        assert c[k] == s[start + k];
      }
    }
    assert s[start..start + |c + "'\n"|] == c + "'\n";
  }

  /** Any match of the pattern at `p` is the one CaptureAt finds. */
  lemma CaptureAtComplete(s: string, p: nat, c: string)
    requires MatchesAt(s, p, c)
    ensures CaptureAt(s, p + |Marker|) == Some(c)
  {
    var start := p + |Marker|;
    var e := start + |c|;
    assert s[start..e + 2] == c + "'\n";
    assert s[e] == '\'' && s[e + 1] == '\n' by {
      assert (c + "'\n")[|c|] == '\'' && (c + "'\n")[|c| + 1] == '\n';
    }
    assert forall k :: start <= k < e ==> s[k] == c[k - start] by {
      forall k | start <= k < e ensures s[k] == c[k - start] {
        assert (c + "'\n")[k - start] == c[k - start];
      }
    }
    forall k | start <= k < e + 1 ensures !IsLineTerminator(s[k]) {
      if k < e {
        assert !IsLineTerminator(c[k - start]);
      }
    }
    LineEndIsFirstTerminator(s, start, e + 1);
    assert s[start..e] == c;
  }

  /** At a start of the marker, CaptureAt finds a capture exactly when the pattern matches there, and it finds that capture. */
  lemma CaptureAtMatches(s: string, p: nat)
    requires OccursAt(s, Marker, p)
    ensures CaptureAt(s, p + |Marker|).Some? ==> MatchesAt(s, p, CaptureAt(s, p + |Marker|).value)
    ensures forall c :: MatchesAt(s, p, c) ==> CaptureAt(s, p + |Marker|) == Some(c)
  {
    if CaptureAt(s, p + |Marker|).Some? {
      CaptureAtSound(s, p);
    }
    forall c | MatchesAt(s, p, c) ensures CaptureAt(s, p + |Marker|) == Some(c) {
      CaptureAtComplete(s, p, c);
    }
  }

  /** The same pattern tried at every index from `p` onwards, leftmost first. */
  function ExecFrom(s: string, p: nat): (r: Option<RegexMatch>)
    ensures r.Some? ==> p <= r.value.index && MatchesAt(s, r.value.index, r.value.capture)
    ensures r.Some? ==> forall q, c :: p <= q < r.value.index ==> !MatchesAt(s, q, c)
    ensures r.None? ==> forall q, c :: p <= q ==> !MatchesAt(s, q, c)
    decreases |s| - p
  {
    if |s| < p + |Marker| then None
    else if OccursAt(s, Marker, p) then
      CaptureAtMatches(s, p);
      match CaptureAt(s, p + |Marker|)
      case Some(c) => Some(RegexMatch(p, c))
      case None => ExecFrom(s, p + 1)
    else ExecFrom(s, p + 1)
  }

  /**
    `/PhysicalResourceId='(.+)'\n/.exec(s)`: `None` when the pattern matches
    nowhere (JavaScript's `null`), otherwise the leftmost match with its
    capture, which is non-empty, lies on one line and is followed in `s` by
    `'` and a newline.
  */
  function Exec(s: string): (r: Option<RegexMatch>)
    ensures r.None? <==> forall p, c :: !MatchesAt(s, p, c)
    ensures r.Some? ==> MatchesAt(s, r.value.index, r.value.capture)
    ensures r.Some? ==> forall q, c :: q < r.value.index ==> !MatchesAt(s, q, c)
  {
    ExecFrom(s, 0)
  }

  /** At one index the pattern has at most one capture. */
  lemma MatchIsUnique(s: string, p: int, c1: string, c2: string)
    requires MatchesAt(s, p, c1) && MatchesAt(s, p, c2)
    ensures c1 == c2
  {
    CaptureAtMatches(s, p);
  }

  /** A successful match spells out the capture's shape in the message. */
  lemma CaptureShape(s: string)
    requires Exec(s).Some?
    ensures var m := Exec(s).value;
      var after := m.index + |Marker| + |m.capture|;
      |m.capture| > 0 && '\n' !in m.capture
      && after + 1 < |s| && s[m.index + |Marker|..after] == m.capture
      && s[after] == '\'' && s[after + 1] == '\n'
  {
    var m := Exec(s).value;
    var start := m.index + |Marker|;
    var after := start + |m.capture|;
    var tail := m.capture + "'\n";
    assert s[start..start + |tail|] == tail;
    assert s[start..after] == tail[..|m.capture|];
    assert tail[|m.capture|] == '\'' && tail[|m.capture| + 1] == '\n';
    assert s[after] == tail[|m.capture|];
    assert s[after + 1] == tail[|m.capture| + 1];
    assert forall k :: 0 <= k < |m.capture| ==> m.capture[k] != '\n';
  }
}
