/** The pure decisions of `ManagementManager` (frontend/js/management.js): which of today's
    sources may still be given metadata, which metadata entries are orphaned, the order in
    which the metadata form is validated, the request a valid form is sent as, and the count
    a bulk delete reports. Its `escapeHtml` is `HtmlEscape.EscapeHtml`. */
module Management {
  import opened Wrappers

  predicate NoDuplicates(xs: seq<string>) {
    forall i, j :: 0 <= i < j < |xs| ==> xs[i] != xs[j]
  }

  /** The index of the first occurrence of `x` in `xs`. */
  function First(xs: seq<string>, x: string): (k: nat)
    requires x in xs
    ensures k < |xs| && xs[k] == x && x !in xs[..k]
  {
    if xs[0] == x then 0 else 1 + First(xs[1..], x)
  }

  /** `[...new Set(xs)]`: every name once, at the place it first occurs. */
  function Dedupe(xs: seq<string>): (r: seq<string>)
    ensures NoDuplicates(r)
    ensures forall x :: x in r <==> x in xs
    decreases |xs|
  {
    if xs == [] then []
    else
      var d := Dedupe(xs[..|xs| - 1]);
      var last := xs[|xs| - 1];
      assert xs == xs[..|xs| - 1] + [last];
      if last in d then d else d + [last]
  }

  /** The names of `xs` that are not in `exclude`, in order (`xs.filter(x => !exclude.includes(x))`). */
  function Without(xs: seq<string>, exclude: seq<string>): (r: seq<string>)
    ensures forall x :: x in r <==> x in xs && x !in exclude
    ensures |r| <= |xs|
    decreases |xs|
  {
    if xs == [] then []
    else if xs[0] in exclude then Without(xs[1..], exclude)
    else [xs[0]] + Without(xs[1..], exclude)
  }

  /** The options of the add-mode source select: the distinct names of today's log rows that
      have no metadata yet. */
  function AvailableSources(todayNames: seq<string>, existing: seq<string>): (r: seq<string>)
    ensures forall x :: x in r <==> x in todayNames && x !in existing
  {
    Without(Dedupe(todayNames), existing)
  }

  datatype Mode = Add | Edit(sourceName: string)

  /** The select is disabled while editing, and in add mode when nothing is available. */
  function SelectDisabled(mode: Mode, available: seq<string>): (r: bool)
    ensures mode.Edit? ==> r
    ensures mode.Add? ==> (r <==> available == [])
  {
    mode.Edit? || |available| == 0
  }

  /** A `source_metadata` row; only the name matters for the cleanup. */
  datatype MetadataItem = MetadataItem(sourceName: string, title: string, category: string, brand: string)

  /** The entries `cleanupOrphanedMetadata` deletes: those whose name is not among the current
      sources. */
  function Orphans(metadata: seq<MetadataItem>, sourceNames: seq<string>): (r: seq<MetadataItem>)
    ensures |r| <= |metadata|
    decreases |metadata|
  {
    if metadata == [] then []
    else
      var rest := Orphans(metadata[1..], sourceNames);
      if metadata[0].sourceName in Dedupe(sourceNames) then rest else [metadata[0]] + rest
  }

  /** The entries the cleanup leaves in place. */
  function Kept(metadata: seq<MetadataItem>, sourceNames: seq<string>): seq<MetadataItem>
    decreases |metadata|
  {
    if metadata == [] then []
    else
      var rest := Kept(metadata[1..], sourceNames);
      if metadata[0].sourceName in Dedupe(sourceNames) then [metadata[0]] + rest else rest
  }

  // ---------------------------------------------------------------------------------------
  // Saving

  /** The form as `saveMetadata` reads it: in edit mode the name comes from an attribute that
      may be missing; the text inputs always hold a string. */
  datatype Form = Form(sourceName: Option<string>, title: string, category: string, brand: string)

  datatype Verdict = MissingSource | MissingTitle | MissingCategory | Accepted

  /** The three checks, in the order the source makes them, stopping at the first. */
  function Validate(f: Form): (v: Verdict)
    ensures v == MissingSource <==> f.sourceName.None? || f.sourceName.value == ""
    ensures v == MissingTitle <==> f.sourceName.Some? && f.sourceName.value != "" && f.title == ""
    ensures v == MissingCategory <==>
      f.sourceName.Some? && f.sourceName.value != "" && f.title != "" && f.category == ""
  {
    if f.sourceName.None? || f.sourceName.value == "" then MissingSource
    else if f.title == "" then MissingTitle
    else if f.category == "" then MissingCategory
    else Accepted
  }

  const MetadataUrl := "http://localhost:3000/api/metadata"

  datatype Request = Request(verb: string, url: string, body: Form)

  /** What pressing save does: a rejected form sends nothing; otherwise edit mode sends `PUT`
      to the entry's own URL and add mode `POST` to the collection. `encode` stands for
      `encodeURIComponent`. */
  function SaveRequest(editMode: bool, f: Form, encode: string -> string): (r: Option<Request>)
    ensures r.Some? <==> Validate(f) == Accepted
    ensures r.Some? ==> r.value.body == f
    ensures r.Some? ==> (r.value.verb == "PUT" <==> editMode)
    ensures r.Some? ==> (r.value.verb == "POST" <==> !editMode)
    ensures r.Some? && !editMode ==> r.value.url == MetadataUrl
    ensures r.Some? && editMode ==> r.value.url == MetadataUrl + "/" + encode(f.sourceName.value)
  {
    if Validate(f) != Accepted then None
    else if editMode then Some(Request("PUT", MetadataUrl + "/" + encode(f.sourceName.value), f))
    else Some(Request("POST", MetadataUrl, f))
  }

  // ---------------------------------------------------------------------------------------
  // Bulk delete

  /** A settled `fetch`: fulfilled with the response's `ok`, or rejected. */
  datatype Settled = Fulfilled(ok: bool) | Rejected

  predicate Succeeded(s: Settled) {
    s.Fulfilled? && s.ok
  }

  /** `results.filter(r => r.status === 'fulfilled' && r.value.ok).length`. */
  function SuccessCount(results: seq<Settled>): (n: nat)
    ensures n <= |results|
    decreases |results|
  {
    if results == [] then 0
    else (if Succeeded(results[0]) then 1 else 0) + SuccessCount(results[1..])
  }

  datatype BulkOutcome = NothingSelected | Cancelled | Deleted(count: nat)

  /** `bulkDelete`: nothing selected and a declined confirmation stop early; otherwise one
      `DELETE` per selected name, settled as `outcome` says, and the successes are counted. */
  function BulkDelete(selected: seq<string>, confirmed: bool, outcome: string -> Settled): (r: BulkOutcome)
    ensures r == NothingSelected <==> selected == []
    ensures r == Cancelled <==> selected != [] && !confirmed
    ensures r.Deleted? ==> r.count <= |selected|
  {
    if |selected| == 0 then NothingSelected
    else if !confirmed then Cancelled
    else Deleted(SuccessCount(seq(|selected|, i requires 0 <= i < |selected| => outcome(selected[i]))))
  }

  // ---------------------------------------------------------------------------------------
  // Properties

  lemma {:induction false} FirstOfPrefix(xs: seq<string>, n: nat, x: string)
    requires n <= |xs| && x in xs[..n]
    ensures First(xs, x) == First(xs[..n], x)
    decreases n
  {
    if xs[0] != x {
      assert xs[1..][..n - 1] == xs[..n][1..];
      FirstOfPrefix(xs[1..], n - 1, x);
    }
  }

  predicate FirstOrder(xs: seq<string>, r: seq<string>)
    requires forall x :: x in r ==> x in xs
  {
    forall i, j :: 0 <= i < j < |r| ==> First(xs, r[i]) < First(xs, r[j])
  }

  lemma {:induction false} DedupeKeepsFirstOccurrenceOrder(xs: seq<string>)
    ensures FirstOrder(xs, Dedupe(xs))
    decreases |xs|
  {
    if xs != [] {
      var init := xs[..|xs| - 1];
      var last := xs[|xs| - 1];
      var d := Dedupe(init);
      DedupeKeepsFirstOccurrenceOrder(init);
      assert FirstOrder(init, d);
      assert xs == init + [last];
      forall y | y in d
        ensures y in xs && First(xs, y) == First(init, y) && First(init, y) < |init|
      {
        FirstOfPrefix(xs, |xs| - 1, y);
      }
      var r := Dedupe(xs);
      if last !in d {
        assert last !in init;
        assert First(xs, last) == |xs| - 1;
      }
      forall i, j | 0 <= i < j < |r|
        ensures First(xs, r[i]) < First(xs, r[j])
      {
        assert r[i] == d[i] && d[i] in d;
        if j < |d| {
          assert r[j] == d[j] && d[j] in d;
          assert First(init, d[i]) < First(init, d[j]);
        } else {
          assert r[j] == last;
        }
      }
    }
  }

  /** A name is offered exactly when it occurs in today's rows and has no metadata; none is
      offered twice, and they come in the order of their first occurrence among today's rows. */
  lemma AvailableSourcesExactly(todayNames: seq<string>, existing: seq<string>)
    ensures var a := AvailableSources(todayNames, existing);
      && (forall x :: x in a <==> x in todayNames && x !in existing)
      && NoDuplicates(a)
      && FirstOrder(todayNames, a)
  {
    WithoutKeepsNoDuplicates(Dedupe(todayNames), existing);
    DedupeKeepsFirstOccurrenceOrder(todayNames);
    WithoutKeepsOrder(todayNames, Dedupe(todayNames), existing);
  }

  /** The filter keeps the order of the names it keeps. */
  lemma {:induction false} WithoutKeepsOrder(xs: seq<string>, d: seq<string>, exclude: seq<string>)
    requires forall x :: x in d ==> x in xs
    requires FirstOrder(xs, d)
    ensures FirstOrder(xs, Without(d, exclude))
    decreases |d|
  {
    if d != [] {
      var rest := d[1..];
      TailKeepsOrder(xs, d);
      WithoutKeepsOrder(xs, rest, exclude);
      if d[0] !in exclude {
        var w := Without(rest, exclude);
        forall y | y in w
          ensures First(xs, d[0]) < First(xs, y)
        {
          var k :| 0 <= k < |rest| && rest[k] == y;
          assert d[k + 1] == y;
        }
        ConsKeepsOrder(xs, d[0], w);
      }
    }
  }

  lemma TailKeepsOrder(xs: seq<string>, d: seq<string>)
    requires d != [] && forall x :: x in d ==> x in xs
    requires FirstOrder(xs, d)
    ensures FirstOrder(xs, d[1..])
  {
    var rest := d[1..];
    forall i, j | 0 <= i < j < |rest|
      ensures First(xs, rest[i]) < First(xs, rest[j])
    {
      assert rest[i] == d[i + 1] && rest[j] == d[j + 1];
    }
  }

  lemma ConsKeepsOrder(xs: seq<string>, x: string, w: seq<string>)
    requires x in xs && forall y :: y in w ==> y in xs
    requires FirstOrder(xs, w)
    requires forall y :: y in w ==> First(xs, x) < First(xs, y)
    ensures FirstOrder(xs, [x] + w)
  {
    var r := [x] + w;
    HeadComesFirst(xs, x, w);
    TailInOrder(xs, x, w);
    forall i, j | 0 <= i < j < |r|
      ensures First(xs, r[i]) < First(xs, r[j])
    {
      if i == 0 {
        assert First(xs, r[0]) < First(xs, r[j]);
      } else {
        assert First(xs, r[i]) < First(xs, r[j]);
      }
    }
  }

  lemma HeadComesFirst(xs: seq<string>, x: string, w: seq<string>)
    requires x in xs && forall y :: y in w ==> y in xs
    requires forall y :: y in w ==> First(xs, x) < First(xs, y)
    ensures forall j :: 0 < j < |[x] + w| ==> First(xs, ([x] + w)[0]) < First(xs, ([x] + w)[j])
  {
    var r := [x] + w;
    forall j | 0 < j < |r|
      ensures First(xs, r[0]) < First(xs, r[j])
    {
      assert r[j] == w[j - 1] && w[j - 1] in w;
    }
  }

  lemma TailInOrder(xs: seq<string>, x: string, w: seq<string>)
    requires x in xs && forall y :: y in w ==> y in xs
    requires FirstOrder(xs, w)
    ensures forall i, j :: 0 < i < j < |[x] + w| ==> First(xs, ([x] + w)[i]) < First(xs, ([x] + w)[j])
  {
    var r := [x] + w;
    forall i, j | 0 < i < j < |r|
      ensures First(xs, r[i]) < First(xs, r[j])
    {
      assert r[i] == w[i - 1] && r[j] == w[j - 1];
    }
  }

  lemma {:induction false} WithoutKeepsNoDuplicates(xs: seq<string>, exclude: seq<string>)
    requires NoDuplicates(xs)
    ensures NoDuplicates(Without(xs, exclude))
    decreases |xs|
  {
    if xs != [] {
      WithoutKeepsNoDuplicates(xs[1..], exclude);
    }
  }

  /** In add mode the select is disabled exactly when every source seen today already has
      metadata. */
  lemma DisabledIffAllHaveMetadata(todayNames: seq<string>, existing: seq<string>)
    ensures SelectDisabled(Add, AvailableSources(todayNames, existing)) <==>
      forall x :: x in todayNames ==> x in existing
  {
    var a := AvailableSources(todayNames, existing);
    if |a| > 0 {
      assert a[0] in a;
    }
  }

  /** Orphaned and kept entries split the metadata: every entry lands in exactly one of the
      two, orphans are exactly the entries whose name is not a current source. */
  lemma {:induction false} OrphansPartition(metadata: seq<MetadataItem>, sourceNames: seq<string>)
    ensures multiset(Orphans(metadata, sourceNames)) + multiset(Kept(metadata, sourceNames))
      == multiset(metadata)
    ensures forall m :: m in Orphans(metadata, sourceNames) <==>
      m in metadata && m.sourceName !in sourceNames
    ensures forall m :: m in Kept(metadata, sourceNames) <==>
      m in metadata && m.sourceName in sourceNames
    decreases |metadata|
  {
    if metadata != [] {
      OrphansPartition(metadata[1..], sourceNames);
      assert metadata == [metadata[0]] + metadata[1..];
    }
  }

  /** `brand` is never checked. */
  lemma BrandIsOptional(f: Form, brand: string)
    ensures Validate(f.(brand := brand)) == Validate(f)
  {
  }

  lemma {:induction false} SuccessCountAll(results: seq<Settled>)
    ensures SuccessCount(results) == |results| <==>
      forall i :: 0 <= i < |results| ==> Succeeded(results[i])
    decreases |results|
  {
    if results != [] {
      SuccessCountAll(results[1..]);
      if !Succeeded(results[0]) {
        assert SuccessCount(results[1..]) <= |results| - 1;
      }
    }
  }

  /** The reported count equals the number selected exactly when every delete succeeded. */
  lemma AllDeletedIffAllSucceed(selected: seq<string>, outcome: string -> Settled)
    requires selected != []
    ensures BulkDelete(selected, true, outcome) == Deleted(|selected|) <==>
      forall i :: 0 <= i < |selected| ==> Succeeded(outcome(selected[i]))
  {
    var results := seq(|selected|, i requires 0 <= i < |selected| => outcome(selected[i]));
    assert BulkDelete(selected, true, outcome) == Deleted(SuccessCount(results));
    SuccessCountAll(results);
    assert forall i :: 0 <= i < |selected| ==> results[i] == outcome(selected[i]);
  }
}
