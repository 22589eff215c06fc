/** Slash-separated path cleaning as Go's path.Clean does it, and what comparing
    cleaned texts says about path segments. */
module PathClean {
  import opened Wrappers

  function Split(s: string): (segments: seq<string>)
    ensures |segments| > 0
  {
    if s == "" then [""]
    else
      var rest := Split(s[1..]);
      if s[0] == '/' then [""] + rest else [[s[0]] + rest[0]] + rest[1..]
  }

  function Join(segments: seq<string>): string {
    if segments == [] then ""
    else if |segments| == 1 then segments[0]
    else segments[0] + "/" + Join(segments[1..])
  }

  /** Adds one segment: empty and "." vanish, ".." takes back the last name. */
  function Push(rooted: bool, out: seq<string>, segment: string): seq<string> {
    if segment == "" || segment == "." then out
    else if segment != ".." then out + [segment]
    else if out != [] && out[|out| - 1] != ".." then out[..|out| - 1]
    else if rooted then out
    else out + [".."]
  }

  function PushAll(rooted: bool, out: seq<string>, segments: seq<string>): seq<string>
    decreases |segments|
  {
    if segments == [] then out else PushAll(rooted, Push(rooted, out, segments[0]), segments[1..])
  }

  function Rooted(p: string): bool {
    p != "" && p[0] == '/'
  }

  function CleanSegments(p: string): seq<string> {
    PushAll(Rooted(p), [], Split(p))
  }

  function Clean(p: string): string {
    var segments := CleanSegments(p);
    if Rooted(p) then "/" + Join(segments) else if segments == [] then "." else Join(segments)
  }

  // ---- What a path means ----------------------------------------------------

  /** Where one segment leads from the directory with the path `place`: ".." leads to
      the parent, which the root has only if it is its own. */
  function Enter(rooted: bool, place: seq<string>, segment: string): Option<seq<string>> {
    if segment == "" || segment == "." then Some(place)
    else if segment != ".." then Some(place + [segment])
    else if place != [] then Some(place[..|place| - 1])
    else if rooted then Some([])
    else None
  }

  /** Where a list of segments leads from `base`, entered one after the other. */
  function Leads(rooted: bool, base: seq<string>, segments: seq<string>): Option<seq<string>> {
    if segments == [] then Some(base)
    else
      var before := Leads(rooted, base, segments[..|segments| - 1]);
      if before.None? then None else Enter(rooted, before.value, segments[|segments| - 1])
  }

  lemma LeadsOneMore(rooted: bool, base: seq<string>, segments: seq<string>, last: string)
    ensures Leads(rooted, base, segments + [last]) ==
      var before := Leads(rooted, base, segments);
      if before.None? then None else Enter(rooted, before.value, last)
  {
    assert (segments + [last])[..|segments|] == segments;
  }

  /** Lists that lead to the same place still do when the same segments follow. */
  lemma {:induction false} LeadsOn(rooted: bool, base: seq<string>, a: seq<string>, b: seq<string>, more: seq<string>)
    requires Leads(rooted, base, a) == Leads(rooted, base, b)
    ensures Leads(rooted, base, a + more) == Leads(rooted, base, b + more)
    decreases |more|
  {
    if more == [] {
      assert a + more == a && b + more == b;
    } else {
      var init, last := more[..|more| - 1], more[|more| - 1];
      assert a + more == a + init + [last] && b + more == b + init + [last];
      LeadsOn(rooted, base, a, b, init);
      LeadsOneMore(rooted, base, a + init, last);
      LeadsOneMore(rooted, base, b + init, last);
    }
  }

  /** Segments collected so far: names, after parents only if the path is relative. */
  ghost predicate Collected(rooted: bool, out: seq<string>) {
    AllPlain(out) && (rooted ==> ".." !in out)
  }

  lemma PushLeads(rooted: bool, base: seq<string>, out: seq<string>, segment: string)
    requires Collected(rooted, out) && '/' !in segment && (rooted ==> base == [])
    ensures Collected(rooted, Push(rooted, out, segment))
    ensures Leads(rooted, base, Push(rooted, out, segment)) == Leads(rooted, base, out + [segment])
  {
    LeadsOneMore(rooted, base, out, segment);
    if segment == ".." && out != [] && out[|out| - 1] != ".." {
      assert Plain(out[|out| - 1]);
    }
  }

  lemma {:induction false} PushAllLeads(rooted: bool, base: seq<string>, out: seq<string>, segments: seq<string>)
    requires Collected(rooted, out) && (rooted ==> base == [])
    requires forall i :: 0 <= i < |segments| ==> '/' !in segments[i]
    ensures Leads(rooted, base, PushAll(rooted, out, segments)) == Leads(rooted, base, out + segments)
    decreases |segments|
  {
    if segments == [] {
      assert out + segments == out;
    } else {
      PushLeads(rooted, base, out, segments[0]);
      PushAllLeads(rooted, base, Push(rooted, out, segments[0]), segments[1..]);
      LeadsOn(rooted, base, Push(rooted, out, segments[0]), out + [segments[0]], segments[1..]);
      assert out + [segments[0]] + segments[1..] == out + segments;
    }
  }

  /** Cleaning keeps the meaning of a path: from every base its cleaned segments lead
      to the place that the path as written leads to, or both lead nowhere. */
  lemma CleanLeadsToSamePlace(p: string, base: seq<string>)
    requires Rooted(p) ==> base == []
    ensures Leads(Rooted(p), base, CleanSegments(p)) == Leads(Rooted(p), base, Split(p))
  {
    SplitHasNoSlash(p);
    PushAllLeads(Rooted(p), base, [], Split(p));
    assert [] + Split(p) == Split(p);
  }

  /** Plain names lead down. */
  lemma {:induction false} NamesLeadDown(base: seq<string>, names: seq<string>)
    requires AllPlain(names) && ".." !in names
    ensures Leads(false, base, names) == Some(base + names)
  {
    if names == [] {
      assert base + names == base;
    } else {
      NamesLeadDown(base, names[..|names| - 1]);
      assert base + names == base + names[..|names| - 1] + [names[|names| - 1]];
    }
  }

  /** A cleaned relative path with a parent segment leads nowhere from the root. */
  lemma ParentLeadsOut(segments: seq<string>)
    requires ParentsFirst(segments) && ".." in segments
    ensures Leads(false, [], segments) == None
  {
    var i :| 0 <= i < |segments| && segments[i] == "..";
    assert segments[0] == "..";
    LeadsNowhere([".."], segments[1..]);
    assert segments == [".."] + segments[1..];
    LeadsOneMore(false, [], [], "..");
    assert [] + [".."] == [".."];
  }

  lemma {:induction false} LeadsNowhere(a: seq<string>, more: seq<string>)
    requires Leads(false, [], a) == None
    ensures Leads(false, [], a + more) == None
    decreases |more|
  {
    if more == [] {
      assert a + more == a;
    } else {
      LeadsNowhere(a, more[..|more| - 1]);
      LeadsOneMore(false, [], a + more[..|more| - 1], more[|more| - 1]);
      assert a + more == a + more[..|more| - 1] + [more[|more| - 1]];
    }
  }

  /** A relative path stays inside exactly when no parent segment is left after
      cleaning, and then its cleaned segments are the way down from every base. */
  lemma StaysInsideExactly(p: string, base: seq<string>)
    requires !Rooted(p)
    ensures Leads(false, [], Split(p)).Some? <==> ".." !in CleanSegments(p)
    ensures ".." !in CleanSegments(p) ==> Leads(false, base, Split(p)) == Some(base + CleanSegments(p))
  {
    CleanSegmentsPlain(p);
    PushAllParentsFirst(false, [], Split(p));
    CleanLeadsToSamePlace(p, []);
    CleanLeadsToSamePlace(p, base);
    if ".." in CleanSegments(p) {
      ParentLeadsOut(CleanSegments(p));
    } else {
      NamesLeadDown([], CleanSegments(p));
      NamesLeadDown(base, CleanSegments(p));
    }
  }

  // ---- Segments -------------------------------------------------------------

  predicate Plain(segment: string) {
    segment != "" && segment != "." && '/' !in segment
  }

  ghost predicate AllPlain(segments: seq<string>) {
    forall i :: 0 <= i < |segments| ==> Plain(segments[i])
  }

  lemma {:induction false} SplitHasNoSlash(s: string)
    ensures forall i :: 0 <= i < |Split(s)| ==> '/' !in Split(s)[i]
  {
    if s != "" {
      SplitHasNoSlash(s[1..]);
    }
  }

  /** Splitting takes a text apart at its slashes and nowhere else. */
  lemma {:induction false} JoinSplit(s: string)
    ensures Join(Split(s)) == s
  {
    if s != "" {
      JoinSplit(s[1..]);
      var rest := Split(s[1..]);
      if s[0] == '/' {
        assert ([""] + rest)[1..] == rest;
      } else {
        assert ([[s[0]] + rest[0]] + rest[1..])[1..] == rest[1..];
      }
      assert s == [s[0]] + s[1..];
    }
  }

  lemma {:induction false} PushAllPlain(rooted: bool, out: seq<string>, segments: seq<string>)
    requires AllPlain(out) && forall i :: 0 <= i < |segments| ==> '/' !in segments[i]
    ensures AllPlain(PushAll(rooted, out, segments))
    decreases |segments|
  {
    if segments != [] {
      PushAllPlain(rooted, Push(rooted, out, segments[0]), segments[1..]);
    }
  }

  lemma CleanSegmentsPlain(p: string)
    ensures AllPlain(CleanSegments(p))
  {
    SplitHasNoSlash(p);
    PushAllPlain(Rooted(p), [], Split(p));
  }

  /** Every ".." of a cleaned path comes first. */
  ghost predicate ParentsFirst(segments: seq<string>) {
    forall i, j :: 0 <= i < j < |segments| && segments[j] == ".." ==> segments[i] == ".."
  }

  lemma {:induction false} PushAllParentsFirst(rooted: bool, out: seq<string>, segments: seq<string>)
    requires ParentsFirst(out)
    ensures ParentsFirst(PushAll(rooted, out, segments))
    decreases |segments|
  {
    if segments != [] {
      PushAllParentsFirst(rooted, Push(rooted, out, segments[0]), segments[1..]);
    }
  }

  /** The first slash of two texts separates the same head when one is a prefix of
      the other. */
  lemma FirstSlash(x: string, a: string, y: string, b: string)
    requires '/' !in x && '/' !in y
    ensures x + "/" + a <= y + "/" + b <==> x == y && a <= b
  {
    var s, t := x + "/" + a, y + "/" + b;
    assert s[|x|] == '/' && t[|y|] == '/';
    if s <= t {
      assert |x| == |y|;
      assert x == s[..|x|] == t[..|x|] == y;
      assert a == s[|x| + 1..] && b == t[|x| + 1..];
    }
  }

  lemma {:induction false} JoinHasSlash(a: seq<string>)
    requires AllPlain(a)
    ensures '/' in Join(a) <==> |a| >= 2
  {
  }

  /** The text prefix test of joined paths is the segment prefix test. */
  lemma {:induction false} JoinPrefix(a: seq<string>, w: seq<string>)
    requires a != [] && AllPlain(a) && AllPlain(w)
    ensures Join(a) + "/" <= Join(w) <==> |a| < |w| && a <= w
    decreases |a|
  {
    if |w| <= 1 {
      JoinHasSlash(w);
      assert (Join(a) + "/")[|Join(a)|] == '/';
    } else if |a| == 1 {
      FirstSlash(a[0], "", w[0], Join(w[1..]));
      assert a[0] + "/" + "" == Join(a) + "/";
    } else {
      JoinPrefix(a[1..], w[1..]);
      FirstSlash(a[0], Join(a[1..]) + "/", w[0], Join(w[1..]));
      assert a[0] + "/" + (Join(a[1..]) + "/") == Join(a) + "/";
      assert a == [a[0]] + a[1..] && w == [w[0]] + w[1..];
    }
  }

  lemma {:induction false} JoinInjective(a: seq<string>, b: seq<string>)
    requires AllPlain(a) && AllPlain(b) && Join(a) == Join(b)
    ensures a == b
    decreases |a|
  {
    JoinHasSlash(a);
    JoinHasSlash(b);
    if |a| >= 2 {
      FirstSlash(a[0], Join(a[1..]), b[0], Join(b[1..]));
      FirstSlash(b[0], Join(b[1..]), a[0], Join(a[1..]));
      JoinInjective(a[1..], b[1..]);
      assert a == [a[0]] + a[1..] && b == [b[0]] + b[1..];
    }
  }

  /** A cleaned relative path is "." exactly when it has no segments. */
  lemma CleanIsDot(p: string)
    requires !Rooted(p)
    ensures Clean(p) == "." <==> CleanSegments(p) == []
  {
    CleanSegmentsPlain(p);
    JoinHasSlash(CleanSegments(p));
  }

  /** On relative paths, comparing cleaned texts for equality or for a prefix ending
      in a slash is comparing segment lists for a prefix. */
  lemma TextPrefixIsSegmentPrefix(w: string, a: string)
    requires !Rooted(w) && !Rooted(a)
    ensures Clean(w) == Clean(a) || Clean(a) == "." || Clean(a) + "/" <= Clean(w)
        <==> CleanSegments(a) <= CleanSegments(w)
  {
    CleanSegmentsPlain(w);
    CleanSegmentsPlain(a);
    CleanIsDot(w);
    CleanIsDot(a);
    var ws, segments := CleanSegments(w), CleanSegments(a);
    if segments != [] {
      if ws == [] {
        assert Clean(w) == ".";
        assert |Clean(a) + "/"| > 1;
      } else {
        JoinPrefix(segments, ws);
        assert segments <= ws <==> segments == ws || (|segments| < |ws| && segments <= ws);
        if Join(segments) == Join(ws) {
          JoinInjective(segments, ws);
        }
      }
    }
  }

  /** A cleaned relative path leaves its directory, that is, has a ".." segment,
      exactly when it is ".." or starts with "../". */
  lemma ParentSegmentShows(p: string)
    requires !Rooted(p)
    ensures ".." in CleanSegments(p) <==> Clean(p) == ".." || "../" <= Clean(p)
  {
    var segments, parent := CleanSegments(p), [".."];
    CleanSegmentsPlain(p);
    PushAllParentsFirst(false, [], Split(p));
    assert Join(parent) == ".." && Join(parent) + "/" == "../";
    JoinPrefix(parent, segments);
    if segments != [] && Join(segments) == ".." {
      JoinInjective(parent, segments);
    }
    assert parent <= segments && |segments| == 1 ==> segments == parent;
  }

  lemma {:induction false} SplitAtSlash(a: string, b: string)
    requires '/' !in a
    ensures Split(a) == [a] && Split(a + "/" + b) == [a] + Split(b)
  {
    if a == "" {
      assert ("" + "/" + b)[1..] == b;
    } else {
      SplitAtSlash(a[1..], b);
      assert (a + "/" + b)[1..] == a[1..] + "/" + b;
      assert a == [a[0]] + a[1..];
    }
  }

  lemma {:induction false} SplitJoin(segments: seq<string>)
    requires segments != [] && AllPlain(segments)
    ensures Split(Join(segments)) == segments
  {
    if |segments| == 1 {
      SplitAtSlash(segments[0], "");
    } else {
      SplitAtSlash(segments[0], Join(segments[1..]));
      SplitJoin(segments[1..]);
      assert segments == [segments[0]] + segments[1..];
    }
  }

  lemma {:induction false} PushAllKeepsClean(out: seq<string>, segments: seq<string>)
    requires AllPlain(out + segments) && ParentsFirst(out + segments)
    ensures PushAll(false, out, segments) == out + segments
    decreases |segments|
  {
    if segments == [] {
      assert out + segments == out;
    } else {
      assert (out + segments)[|out|] == segments[0];
      if out != [] && segments[0] == ".." {
        assert (out + segments)[|out| - 1] == out[|out| - 1];
      }
      assert Push(false, out, segments[0]) == out + [segments[0]];
      assert out + [segments[0]] + segments[1..] == out + segments;
      PushAllKeepsClean(out + [segments[0]], segments[1..]);
    }
  }

  /** Cleaning a relative path twice is cleaning it once, and the result is
      relative. */
  lemma CleanIdempotent(p: string)
    requires !Rooted(p)
    ensures !Rooted(Clean(p)) && Clean(Clean(p)) == Clean(p) && Clean(p) != ""
  {
    var segments := CleanSegments(p);
    CleanSegmentsPlain(p);
    PushAllParentsFirst(false, [], Split(p));
    if segments == [] {
      SplitAtSlash(".", "");
    } else {
      assert Plain(segments[0]) && Join(segments)[0] == segments[0][0];
      SplitJoin(segments);
      assert [] + segments == segments;
      PushAllKeepsClean([], segments);
    }
  }
}
