/** The names staged input files get on the remote resource
    (`_create_input_filename` in cerise/back_end/remote_job_files.py): a
    unique counter, an underscore, and the original location made safe for
    a file name and cut to at most 39 characters. */
module StagedNames {
  import opened Text

  /** The characters the regular expression `[^a-zA-Z0-9_.-]+` leaves. */
  predicate Allowed(c: char) {
    ('a' <= c <= 'z') || ('A' <= c <= 'Z') || ('0' <= c <= '9') || c == '_' || c == '.' || c == '-'
  }

  predicate AllAllowed(s: string) {
    forall i :: 0 <= i < |s| ==> Allowed(s[i])
  }

  /** `s` without its leading run of disallowed characters. */
  function DropRun(s: string): (r: string)
    ensures |r| <= |s|
    ensures r == [] || Allowed(r[0])
  {
    if s != [] && !Allowed(s[0]) then DropRun(s[1..]) else s
  }

  /** `re.sub('[^a-zA-Z0-9_.-]+', '_', s)`: every maximal run of
      disallowed characters becomes one underscore. */
  function Collapse(s: string): (r: string)
    ensures |r| <= |s|
    ensures AllAllowed(r)
    decreases |s|
  {
    if s == [] then []
    else if Allowed(s[0]) then [s[0]] + Collapse(s[1..])
    else "_" + Collapse(DropRun(s))
  }

  /** A string of allowed characters is left as it is. */
  lemma {:induction false} CollapseAllowed(s: string)
    requires AllAllowed(s)
    ensures Collapse(s) == s
    decreases |s|
  {
    if s != [] {
      CollapseAllowed(s[1..]);
    }
  }

  /** Collapsing twice is collapsing once. */
  lemma CollapseIdempotent(s: string)
    ensures Collapse(Collapse(s)) == Collapse(s)
  {
    CollapseAllowed(Collapse(s));
  }

  /** An allowed first character is kept as it is. */
  lemma CollapseAllowedFirst(c: char, s: string)
    requires Allowed(c)
    ensures Collapse([c] + s) == [c] + Collapse(s)
  {
    assert ([c] + s)[1..] == s;
  }

  /** An allowed prefix is kept as it is, whatever follows it. */
  lemma {:induction false} CollapseAllowedPrefix(w: string, x: string)
    requires AllAllowed(w)
    ensures Collapse(w + x) == w + Collapse(x)
    decreases |w|
  {
    if w == [] {
      assert w + x == x;
    } else {
      assert w + x == [w[0]] + (w[1..] + x);
      CollapseAllowedFirst(w[0], w[1..] + x);
      CollapseAllowedPrefix(w[1..], x);
      ConsRegroup(w, Collapse(x));
    }
  }

  lemma ConsRegroup(w: string, rest: string)
    requires w != []
    ensures [w[0]] + (w[1..] + rest) == w + rest
  {
    assert w == [w[0]] + w[1..];
  }

  /** A run of disallowed characters between allowed text and text that
      starts allowed becomes exactly one underscore. */
  lemma CollapseRun(w: string, run: string, t: string)
    requires AllAllowed(w)
    requires run != [] && forall i :: 0 <= i < |run| ==> !Allowed(run[i])
    requires t == [] || Allowed(t[0])
    ensures Collapse(w + run + t) == w + "_" + Collapse(t)
  {
    CollapseAllowedPrefix(w, run + t);
    CollapseRunFirst(run, t);
    Regroup(w, run, t);
    Regroup(w, "_", Collapse(t));
  }

  lemma Regroup(a: string, b: string, c: string)
    ensures a + b + c == a + (b + c)
  {
  }

  lemma CollapseRunFirst(run: string, t: string)
    requires run != [] && forall i :: 0 <= i < |run| ==> !Allowed(run[i])
    requires t == [] || Allowed(t[0])
    ensures Collapse(run + t) == "_" + Collapse(t)
  {
    assert (run + t)[0] == run[0];
    DropRunAll(run, t);
  }

  lemma {:induction false} DropRunAll(run: string, t: string)
    requires forall i :: 0 <= i < |run| ==> !Allowed(run[i])
    requires t == [] || Allowed(t[0])
    ensures DropRun(run + t) == t
    decreases |run|
  {
    if run != [] {
      assert (run + t)[1..] == run[1..] + t;
      DropRunAll(run[1..], t);
    } else {
      assert run + t == t;
    }
  }

  /** A name longer than 39 characters keeps its first 18 and last 18,
      joined by three underscores. */
  function Shorten(s: string): (r: string)
    ensures |s| <= 39 ==> r == s
    ensures |s| > 39 ==> |r| == 39 && r[..18] == s[..18] && r[18..21] == "___" && r[21..] == s[|s| - 18..]
  {
    if |s| > 39 then s[..18] + "___" + s[|s| - 18..] else s
  }

  /** `_create_input_filename(prefix, orig)`. The four `str.replace` calls
      before the substitution discard their results and change nothing. */
  function CreateInputFilename(prefix: string, orig: string): (r: string)
    ensures |prefix| < |r| <= |prefix| + 40
    ensures r[..|prefix|] == prefix && r[|prefix|] == '_'
    ensures AllAllowed(r[|prefix| + 1..])
  {
    var r := prefix + "_" + Shorten(Collapse(orig));
    assert r[|prefix| + 1..] == Shorten(Collapse(orig));
    r
  }

  /** A location made only of allowed characters and at most 39 long is
      used as it is, after the prefix and an underscore. */
  lemma CreateInputFilenamePlain(prefix: string, orig: string)
    requires AllAllowed(orig) && |orig| <= 39
    ensures CreateInputFilename(prefix, orig) == prefix + "_" + orig
  {
    CollapseAllowed(orig);
  }

  /** One of the separators `/ ? & =` that the `replace` calls name, between
      two allowed parts, becomes a single underscore through the
      substitution alone. */
  lemma CreateInputFilenameSeparator(prefix: string, a: string, c: char, b: string)
    requires AllAllowed(a) && AllAllowed(b) && |a| + 1 + |b| <= 39
    requires c == '/' || c == '?' || c == '&' || c == '='
    ensures CreateInputFilename(prefix, a + [c] + b) == prefix + "_" + a + "_" + b
  {
    CollapseRun(a, [c], b);
    CollapseAllowed(b);
  }

  /** `str(count).zfill(2)`. */
  function Counter(count: nat): string {
    ZFill(Decimal(count), 2)
  }

  /** The counter is a digit string that reads back as the count. */
  lemma CounterValue(count: nat)
    ensures |Counter(count)| >= 1 && AllDigits(Counter(count))
    ensures DecimalValue(Counter(count)) == count
  {
    var s := Decimal(count);
    DecimalRoundTrip(count);
    if |s| < 2 {
      assert s[0] != '+' && s[0] != '-';
      LeadingZerosValue(2 - |s|, s);
    }
  }

  /** Distinct counters give distinct staged names, whatever the original
      locations: the digits run up to the first underscore. */
  lemma StagedNamesDistinct(n1: nat, n2: nat, orig1: string, orig2: string)
    requires n1 != n2
    ensures CreateInputFilename(Counter(n1), orig1) != CreateInputFilename(Counter(n2), orig2)
  {
    CounterValue(n1);
    CounterValue(n2);
    var p1, p2 := Counter(n1), Counter(n2);
    var r1, r2 := CreateInputFilename(p1, orig1), CreateInputFilename(p2, orig2);
    if |p1| < |p2| {
      assert r1[|p1|] != r2[|p1|] by {
        assert r2[|p1|] == p2[|p1|];
      }
    } else if |p2| < |p1| {
      assert r2[|p2|] != r1[|p2|] by {
        assert r1[|p2|] == p1[|p2|];
      }
    } else {
      assert p1 != p2;
      assert r1[..|p1|] != r2[..|p1|];
    }
  }
}
