/**
  The ASP.NET Core controller of the webhook sample
  (webhook/Controllers/WebhookController.cs): the href parsing of
  `HookInputData`, the guard chains of the three `api/forge/webhook`
  actions, the callback endpoint that schedules a metadata job, and the
  retry decision of that job.

  The session store, the application settings, the Forge servers and the
  Hangfire scheduler are outside the model: the session's answer is a
  parameter, the settings a map, the servers the `ForgeApi` oracle, and
  the scheduler a `Scheduler` object whose only state is its job list.
 */
module Controller {
  import opened CSharp
  import opened Webhook

  /** The segments of a href split on '/', or the exception `href.Split('/')` raises on null. */
  function Segments(href: Option<string>): (r: Outcome<seq<string>>)
    ensures href.None? <==> r.Throws?
    ensures r.Throws? ==> r.error == NullReference
    ensures r.Returns? ==> Join(r.value, "/") == href.value && |r.value| == Count(href.value, '/') + 1
  {
    match href
    case None => Throws(NullReference)
    case Some(s) => SplitJoin(s, '/'); Returns(Split(s, '/'))
  }

  /**
    The shared shape of the three extractors: the segment `back` places
    from the end is returned when the segment just before it is `resource`,
    and "" otherwise. The resource segment is indexed first, then the id.
   */
  function IdAfterResource(href: Option<string>, resource: string, back: nat): Outcome<string>
  {
    match Segments(href)
    case Throws(e) => Throws(e)
    case Returns(parts) =>
      match ElementAt(parts, |parts| - back - 1)
      case Throws(e) => Throws(e)
      case Returns(kind) =>
        match ElementAt(parts, |parts| - back)
        case Throws(e) => Throws(e)
        case Returns(id) => if kind == resource then Returns(id) else Returns("")
  }

  /** A non-null href throws exactly when it has too few segments. */
  lemma IdAfterResourceThrows(href: Option<string>, resource: string, back: nat)
    requires back >= 1
    ensures var r := IdAfterResource(href, resource, back);
            && (href.None? ==> r == Throws(NullReference))
            && (href.Some? ==> (r.Throws? <==> Count(href.value, '/') < back))
            && (href.Some? && r.Throws? ==> r.error == IndexOutOfRange)
  {
  }

  /** `HookInputData.ExtractFolderIdFromHref`: the last segment when the one before is "folders". */
  function ExtractFolderIdFromHref(href: Option<string>): (r: Outcome<string>)
    ensures href.None? ==> r == Throws(NullReference)
    ensures href.Some? ==> (r.Throws? <==> '/' !in href.value)
    ensures href.Some? && r.Throws? ==> r.error == IndexOutOfRange
  {
    IdAfterResourceThrows(href, "folders", 1);
    IdAfterResource(href, "folders", 1)
  }

  /** `HookInputData.ExtractProjectIdFromHref`: the third segment from the end when the fourth is "projects". */
  function ExtractProjectIdFromHref(href: Option<string>): (r: Outcome<string>)
    ensures href.None? ==> r == Throws(NullReference)
    ensures href.Some? ==> (r.Throws? <==> Count(href.value, '/') < 3)
    ensures href.Some? && r.Throws? ==> r.error == IndexOutOfRange
  {
    IdAfterResourceThrows(href, "projects", 3);
    IdAfterResource(href, "projects", 3)
  }

  /** `HookInputData.ExtractHubIdFromHref`: the last segment when the one before is "hubs". */
  function ExtractHubIdFromHref(href: Option<string>): (r: Outcome<string>)
    ensures href.None? ==> r == Throws(NullReference)
    ensures href.Some? ==> (r.Throws? <==> '/' !in href.value)
    ensures href.Some? && r.Throws? ==> r.error == IndexOutOfRange
  {
    IdAfterResourceThrows(href, "hubs", 1);
    IdAfterResource(href, "hubs", 1)
  }

  /** A prefix that ends a segment: empty, or ending in '/'. */
  predicate SegmentBoundary(prefix: string)
  {
    prefix == [] || prefix[|prefix| - 1] == '/'
  }

  /** The segments a segment-ending prefix contributes: none when empty, else those before its last '/'. */
  function PrefixSegments(prefix: string): seq<string>
    requires SegmentBoundary(prefix)
  {
    if prefix == [] then [] else Split(prefix[..|prefix| - 1], '/')
  }

  /** The segments of `prefix + rest` where `prefix` ends a segment: the prefix's own, then those of `rest`. */
  lemma SplitAtBoundary(prefix: string, rest: string)
    requires SegmentBoundary(prefix)
    ensures Split(prefix + rest, '/') == PrefixSegments(prefix) + Split(rest, '/')
  {
    if prefix == [] {
      assert prefix + rest == rest;
    } else {
      var p := prefix[..|prefix| - 1];
      assert prefix + rest == p + ['/'] + rest;
      SplitAppend(p, rest, '/');
    }
  }

  /**
    Reading the segments of a href around position `back` from the end: the
    id after them when the segment before it is `resource`, and "" otherwise.
   */
  lemma IdAfterResourceAt(h: string, resource: string, front: seq<string>, kind: string, id: string, after: seq<string>)
    requires Split(h, '/') == front + [kind, id] + after
    ensures IdAfterResource(Some(h), resource, |after| + 1) == Returns(if kind == resource then id else "")
  {
    var parts := Split(h, '/');
    assert parts[|parts| - |after| - 2] == kind;
    assert parts[|parts| - |after| - 1] == id;
  }

  /** A list cut around the two elements `back` and `back - 1` places before its end. */
  lemma SegmentsAround<T>(parts: seq<T>, back: nat)
    requires 1 <= back < |parts|
    ensures var n := |parts|;
            parts == parts[..n - back - 1] + [parts[n - back - 1], parts[n - back]] + parts[n - back + 1..]
  {
    var n := |parts|;
    assert parts == parts[..n - back - 1] + parts[n - back - 1..n - back + 1] + parts[n - back + 1..];
  }

  /** The segments of "a/b" for separator-free `a` and `b`. */
  lemma SplitTwo(a: string, b: string)
    requires '/' !in a && '/' !in b
    ensures Split(a + "/" + b, '/') == [a, b]
  {
    SplitAppend(a, b, '/');
    SplitWithoutSeparator(a, '/');
    SplitWithoutSeparator(b, '/');
  }

  /** The segments of a href ending in `resource` and an id: the prefix's, then those two. */
  lemma SplitOfResourceHref(prefix: string, resource: string, id: string)
    requires SegmentBoundary(prefix) && '/' !in resource && '/' !in id
    ensures Split(prefix + resource + "/" + id, '/') == PrefixSegments(prefix) + [resource, id] + []
  {
    calc {
      Split(prefix + resource + "/" + id, '/');
      { assert prefix + resource + "/" + id == prefix + (resource + "/" + id); }
      Split(prefix + (resource + "/" + id), '/');
      { SplitAtBoundary(prefix, resource + "/" + id); }
      PrefixSegments(prefix) + Split(resource + "/" + id, '/');
      { SplitTwo(resource, id); assert [resource, id] == [resource, id] + []; }
      PrefixSegments(prefix) + [resource, id] + [];
    }
  }

  /** Any href ending in the segments `resource` and an id yields that id. */
  lemma IdOfResourceHref(prefix: string, resource: string, id: string)
    requires SegmentBoundary(prefix) && '/' !in resource && '/' !in id
    ensures IdAfterResource(Some(prefix + resource + "/" + id), resource, 1) == Returns(id)
  {
    SplitOfResourceHref(prefix, resource, id);
    IdAfterResourceAt(prefix + resource + "/" + id, resource, PrefixSegments(prefix), resource, id, []);
  }

  /** Any href ending in the segments "folders" and an id yields that id. */
  lemma FolderIdOfFolderHref(prefix: string, id: string)
    requires SegmentBoundary(prefix) && '/' !in id
    ensures ExtractFolderIdFromHref(Some(prefix + "folders/" + id)) == Returns(id)
  {
    IdOfResourceHref(prefix, "folders", id);
    assert prefix + "folders" + "/" == prefix + "folders/";
  }

  /** Any href ending in the segments "hubs" and an id yields that id. */
  lemma HubIdOfHubHref(prefix: string, id: string)
    requires SegmentBoundary(prefix) && '/' !in id
    ensures ExtractHubIdFromHref(Some(prefix + "hubs/" + id)) == Returns(id)
  {
    IdOfResourceHref(prefix, "hubs", id);
    assert prefix + "hubs" + "/" == prefix + "hubs/";
  }

  /** The segments of "a/b/c/d" for separator-free pieces. */
  lemma SplitFour(a: string, b: string, c: string, d: string)
    requires '/' !in a && '/' !in b && '/' !in c && '/' !in d
    ensures Split(a + "/" + b + "/" + c + "/" + d, '/') == [a, b, c, d]
  {
    var x, y := a + "/" + b, c + "/" + d;
    calc {
      Split(a + "/" + b + "/" + c + "/" + d, '/');
      { assert a + "/" + b + "/" + c + "/" + d == x + ['/'] + y; }
      Split(x + ['/'] + y, '/');
      { SplitAppend(x, y, '/'); }
      Split(x, '/') + Split(y, '/');
      { SplitTwo(a, b); SplitTwo(c, d); }
      [a, b] + [c, d];
    }
  }

  /** The segments of a href ending in `resource`, an id and two more segments. */
  lemma SplitOfNestedHref(prefix: string, resource: string, id: string, kind: string, child: string)
    requires SegmentBoundary(prefix) && '/' !in resource && '/' !in id && '/' !in kind && '/' !in child
    ensures Split(prefix + resource + "/" + id + "/" + kind + "/" + child, '/')
            == PrefixSegments(prefix) + [resource, id] + [kind, child]
  {
    var rest := resource + "/" + id + "/" + kind + "/" + child;
    calc {
      Split(prefix + resource + "/" + id + "/" + kind + "/" + child, '/');
      { assert prefix + resource + "/" + id + "/" + kind + "/" + child == prefix + rest; }
      Split(prefix + rest, '/');
      { SplitAtBoundary(prefix, rest); }
      PrefixSegments(prefix) + Split(rest, '/');
      { SplitFour(resource, id, kind, child); assert [resource, id, kind, child] == [resource, id] + [kind, child]; }
      PrefixSegments(prefix) + [resource, id] + [kind, child];
    }
  }

  /** Any href ending in `resource`, an id and two more segments yields that id three places from the end. */
  lemma IdOfNestedHref(prefix: string, resource: string, id: string, kind: string, child: string)
    requires SegmentBoundary(prefix) && '/' !in resource && '/' !in id && '/' !in kind && '/' !in child
    ensures IdAfterResource(Some(prefix + resource + "/" + id + "/" + kind + "/" + child), resource, 3) == Returns(id)
  {
    SplitOfNestedHref(prefix, resource, id, kind, child);
    IdAfterResourceAt(prefix + resource + "/" + id + "/" + kind + "/" + child, resource, PrefixSegments(prefix), resource, id,
                      [kind, child]);
  }

  /** Any href ending in "projects", an id and two more segments yields that id. */
  lemma ProjectIdOfProjectHref(prefix: string, id: string, kind: string, child: string)
    requires SegmentBoundary(prefix) && '/' !in id && '/' !in kind && '/' !in child
    ensures ExtractProjectIdFromHref(Some(prefix + "projects/" + id + "/" + kind + "/" + child)) == Returns(id)
  {
    IdOfNestedHref(prefix, "projects", id, kind, child);
    assert prefix + "projects" + "/" == prefix + "projects/";
  }

  /** The text the segments `front` stand for in front of further segments: each followed by '/'. */
  function JoinedPrefix(front: seq<string>): (p: string)
    ensures SegmentBoundary(p)
    ensures front != [] ==> |p| >= 1 && p[..|p| - 1] == Join(front, "/")
  {
    if front == [] then "" else Join(front, "/") + "/"
  }

  /** Joining a list that ends in `a` and `b`. */
  lemma JoinLastTwo(front: seq<string>, a: string, b: string)
    ensures Join(front + [a, b], "/") == JoinedPrefix(front) + a + "/" + b
  {
    if front == [] {
      assert front + [a, b] == [a, b];
    } else {
      JoinSnoc(front, a, "/");
      assert front + [a, b] == (front + [a]) + [b];
      JoinSnoc(front + [a], b, "/");
    }
  }

  /**
    A href whose last two segments are `resource` and `v` is a
    segment-ending prefix followed by "resource/v"; `v` may be empty.
   */
  lemma TrailingSegments(h: string, resource: string, v: string)
    requires var parts := Split(h, '/'); |parts| >= 2 && parts[|parts| - 2] == resource && parts[|parts| - 1] == v
    ensures |h| >= |resource| + 1 + |v|
    ensures var prefix := h[..|h| - |v| - |resource| - 1];
            && h == prefix + resource + "/" + v
            && SegmentBoundary(prefix)
            && '/' !in resource && '/' !in v
  {
    var parts := Split(h, '/');
    var front := parts[..|parts| - 2];
    var prefix := JoinedPrefix(front);
    assert '/' !in resource && '/' !in v;
    assert h == prefix + resource + "/" + v by {
      LastTwo(parts);
      assert parts == front + [resource, v];
      SplitJoin(h, '/');
      JoinLastTwo(front, resource, v);
    }
    DropTwoSegments(h, prefix, resource, "/", v);
  }

  /** Cutting two known segments and their separator off a string leaves the rest. */
  lemma DropTwoSegments(h: string, prefix: string, a: string, sep: string, b: string)
    requires h == prefix + a + sep + b
    ensures h[..|h| - |a| - |b| - |sep|] == prefix
  {
    assert h == prefix + (a + sep + b);
  }

  /**
    A non-empty id comes only from a href that ends in "resource/id": the
    id is the last segment and the one before it is `resource`.
   */
  lemma LastSegmentSound(h: string, resource: string, v: string)
    requires '/' !in resource
    requires IdAfterResource(Some(h), resource, 1) == Returns(v) && v != ""
    ensures |h| >= |resource| + 1 + |v|
    ensures var prefix := h[..|h| - |v| - |resource| - 1];
            && h == prefix + resource + "/" + v
            && SegmentBoundary(prefix)
            && '/' !in v
  {
    TrailingSegments(h, resource, v);
  }

  /** `LastSegmentSound` with the resource and its separator written as one string. */
  lemma LastSegmentSlashed(h: string, resource: string, slashed: string, v: string)
    requires '/' !in resource && slashed == resource + "/"
    requires IdAfterResource(Some(h), resource, 1) == Returns(v) && v != ""
    ensures |h| >= |slashed| + |v|
    ensures var prefix := h[..|h| - |v| - |slashed|];
            h == prefix + slashed + v && SegmentBoundary(prefix) && '/' !in v
  {
    LastSegmentSound(h, resource, v);
    JoinSlashed(h, resource, slashed, v);
  }

  /** `TrailingSegments` with the resource and its separator written as one string. */
  lemma TrailingSlashed(h: string, resource: string, slashed: string, v: string)
    requires var parts := Split(h, '/'); |parts| >= 2 && parts[|parts| - 2] == resource && parts[|parts| - 1] == v
    requires slashed == resource + "/"
    ensures |h| >= |slashed| + |v|
    ensures var prefix := h[..|h| - |v| - |slashed|];
            h == prefix + slashed + v && SegmentBoundary(prefix) && '/' !in v
  {
    TrailingSegments(h, resource, v);
    JoinSlashed(h, resource, slashed, v);
  }

  /** The prefix form of `TrailingSegments` with the resource and its separator written as one string. */
  lemma JoinSlashed(h: string, resource: string, slashed: string, v: string)
    requires slashed == resource + "/" && |h| >= |resource| + 1 + |v|
    requires h == h[..|h| - |v| - |resource| - 1] + resource + "/" + v
    ensures var prefix := h[..|h| - |v| - |slashed|];
            h == prefix + slashed + v
  {
    var prefix := h[..|h| - |v| - |slashed|];
    assert prefix + resource + "/" + v == prefix + slashed + v;
  }

  /** Joining a list that ends in four given segments. */
  lemma JoinLastFour(front: seq<string>, a: string, b: string, c: string, d: string)
    ensures Join(front + [a, b, c, d], "/") == JoinedPrefix(front) + a + "/" + b + "/" + c + "/" + d
  {
    JoinLastTwo(front, a, b);
    JoinLastTwo(front + [a, b], c, d);
    assert front + [a, b, c, d] == (front + [a, b]) + [c, d];
  }

  /** On a href with four or more segments, the project extractor's answer read off the segments. */
  lemma ProjectIdValue(h: string)
    requires Count(h, '/') >= 3
    ensures var parts := Split(h, '/');
            ExtractProjectIdFromHref(Some(h)) == Returns(if parts[|parts| - 4] == "projects" then parts[|parts| - 3] else "")
  {
    var parts := Split(h, '/');
    var n := |parts|;
    var front, kind, id, after := parts[..n - 4], parts[n - 4], parts[n - 3], parts[n - 2..];
    assert parts == front + [kind, id] + after by { SegmentsAround(parts, 3); }
    IdAfterResourceAt(h, "projects", front, kind, id, after);
  }

  /** A non-empty project id is the third segment from the end, and "projects" is the fourth. */
  lemma ProjectIdSegments(h: string, v: string)
    requires ExtractProjectIdFromHref(Some(h)) == Returns(v) && v != ""
    ensures var parts := Split(h, '/');
            |parts| >= 4 && parts[|parts| - 4] == "projects" && parts[|parts| - 3] == v
  {
    ProjectIdValue(h);
  }

  /** A href with four or more segments whose fourth from the end is not "projects" yields "". */
  lemma ProjectIdOtherwiseEmpty(h: string)
    requires var parts := Split(h, '/'); |parts| >= 4 && parts[|parts| - 4] != "projects"
    ensures ExtractProjectIdFromHref(Some(h)) == Returns("")
  {
    ProjectIdValue(h);
  }

  /**
    A href whose last four segments are `a`, `b`, `c` and `d` is a
    segment-ending prefix followed by "a/b/c/d".
   */
  lemma {:induction false} FourTrailingSegments(h: string, a: string, b: string, c: string, d: string)
    requires var parts := Split(h, '/');
             |parts| >= 4 && parts[|parts| - 4..] == [a, b, c, d]
    ensures |h| >= 3 + |a| + |b| + |c| + |d|
    ensures var prefix := h[..|h| - |a| - |b| - |c| - |d| - 3];
            && h == prefix + a + "/" + b + "/" + c + "/" + d
            && SegmentBoundary(prefix)
  {
    var parts := Split(h, '/');
    var front := parts[..|parts| - 4];
    assert parts == front + [a, b, c, d] by {
      assert parts == parts[..|parts| - 4] + parts[|parts| - 4..];
    }
    RejoinFour(h, front, a, b, c, d);
    DropFourSegments(h, JoinedPrefix(front), a, "/", b, c, d);
  }

  /**
    `ExtractProjectIdFromHref` accepts exactly the hrefs ending in
    "projects/<id>/<kind>/<child>": a non-empty id comes only from such a
    href, with the last two segments whatever they are.
   */
  lemma ProjectIdSound(h: string, v: string)
    requires ExtractProjectIdFromHref(Some(h)) == Returns(v) && v != ""
    ensures var parts := Split(h, '/');
            var kind := parts[|parts| - 2];
            var child := parts[|parts| - 1];
            && |h| >= 11 + |v| + |kind| + |child|
            && var prefix := h[..|h| - 11 - |v| - |kind| - |child|];
               && h == prefix + "projects" + "/" + v + "/" + kind + "/" + child
               && SegmentBoundary(prefix)
               && '/' !in v && '/' !in kind && '/' !in child
  {
    ProjectIdSegments(h, v);
    var parts := Split(h, '/');
    var n := |parts|;
    assert parts[n - 4..] == ["projects", v, parts[n - 2], parts[n - 1]];
    FourTrailingSegments(h, "projects", v, parts[n - 2], parts[n - 1]);
  }

  /** A href is the join of its segments, here a front and four more. */
  lemma RejoinFour(h: string, front: seq<string>, a: string, b: string, c: string, d: string)
    requires Split(h, '/') == front + [a, b, c, d]
    ensures h == JoinedPrefix(front) + a + "/" + b + "/" + c + "/" + d
  {
    SplitJoin(h, '/');
    JoinLastFour(front, a, b, c, d);
  }

  /** Cutting four known segments and their separators off a string leaves the rest. */
  lemma DropFourSegments(h: string, prefix: string, a: string, sep: string, b: string, c: string, d: string)
    requires h == prefix + a + sep + b + sep + c + sep + d
    ensures h[..|h| - |a| - |b| - |c| - |d| - 3 * |sep|] == prefix
  {
    assert h == prefix + (a + sep + b + sep + c + sep + d);
  }

  /** A list of two or more: its front, then its last two elements. */
  lemma LastTwo<T>(parts: seq<T>)
    requires |parts| >= 2
    ensures parts == parts[..|parts| - 2] + [parts[|parts| - 2], parts[|parts| - 1]]
  {
  }

  /** `ExtractFolderIdFromHref` accepts exactly the hrefs ending in "folders/<id>". */
  lemma FolderIdSound(h: string, v: string)
    requires ExtractFolderIdFromHref(Some(h)) == Returns(v) && v != ""
    ensures |h| >= 8 + |v|
    ensures var prefix := h[..|h| - |v| - 8];
            h == prefix + "folders/" + v && SegmentBoundary(prefix) && '/' !in v
  {
    LastSegmentSlashed(h, "folders", "folders/", v);
  }

  /** `ExtractHubIdFromHref` accepts exactly the hrefs ending in "hubs/<id>". */
  lemma HubIdSound(h: string, v: string)
    requires ExtractHubIdFromHref(Some(h)) == Returns(v) && v != ""
    ensures |h| >= 5 + |v|
    ensures var prefix := h[..|h| - |v| - 5];
            h == prefix + "hubs/" + v && SegmentBoundary(prefix) && '/' !in v
  {
    LastSegmentSlashed(h, "hubs", "hubs/", v);
  }

  /** The form or query fields of the three hook actions. */
  datatype HookInputData = HookInputData(folder: Option<string>, hub: Option<string>)

  /** `HookInputData.FolderId`. */
  function FolderId(input: HookInputData): Outcome<string>
  {
    ExtractFolderIdFromHref(input.folder)
  }

  /** `HookInputData.ProjectId`: read from the folder href, which carries the project too. */
  function ProjectId(input: HookInputData): Outcome<string>
  {
    ExtractProjectIdFromHref(input.folder)
  }

  /** `HookInputData.HubId`. */
  function HubId(input: HookInputData): Outcome<string>
  {
    ExtractHubIdFromHref(input.hub)
  }

  /** The id passes the guard: it was extracted without exception and is not blank. */
  predicate Usable(id: Outcome<string>)
  {
    id.Returns? && !IsNullOrWhiteSpace(id.value)
  }

  /**
    A chain of `if (string.IsNullOrWhiteSpace(id)) return ...;` guards over
    ids read in order: the first exception escapes, the first blank id
    rejects (`None`), and only a chain of usable ids passes them all on.
   */
  function CheckIds(ids: seq<Outcome<string>>): (r: Outcome<Option<seq<string>>>)
    ensures r.Returns? && r.value.Some? <==> forall i :: 0 <= i < |ids| ==> Usable(ids[i])
    ensures r.Returns? && r.value.Some? ==>
              |r.value.value| == |ids| && forall i :: 0 <= i < |ids| ==> ids[i] == Returns(r.value.value[i])
    ensures r.Throws? ==>
              exists k :: 0 <= k < |ids| && ids[k] == Throws(r.error) && forall i :: 0 <= i < k ==> Usable(ids[i])
    ensures r == Returns(None) ==>
              exists k :: 0 <= k < |ids| && ids[k].Returns? && IsNullOrWhiteSpace(ids[k].value)
                          && forall i :: 0 <= i < k ==> Usable(ids[i])
  {
    if ids == [] then Returns(Some([]))
    else
      match ids[0]
      case Throws(e) => Throws(e)
      case Returns(v) =>
        if IsNullOrWhiteSpace(v) then Returns(None)
        else
          var rest := CheckIds(ids[1..]);
          assert forall i :: 1 <= i < |ids| ==> ids[i] == ids[1..][i - 1];
          match rest
          case Throws(e) => Throws(e)
          case Returns(None) => Returns(None)
          case Returns(Some(vs)) => Returns(Some([v] + vs))
  }

  /** One guard of the chain: its own verdict, or the verdict of the guards after it. */
  lemma CheckIdsStep(ids: seq<Outcome<string>>)
    requires |ids| > 0
    ensures ids[0].Throws? ==> CheckIds(ids) == Throws(ids[0].error)
    ensures ids[0].Returns? && IsNullOrWhiteSpace(ids[0].value) ==> CheckIds(ids) == Returns(None)
    ensures Usable(ids[0]) ==>
              var rest := CheckIds(ids[1..]);
              && (rest.Throws? ==> CheckIds(ids) == rest)
              && (rest == Returns(None) ==> CheckIds(ids) == rest)
              && (rest.Returns? && rest.value.Some? ==> CheckIds(ids) == Returns(Some([ids[0].value] + rest.value.value)))
  {
  }

  /** The chain of two guards `GetHooks` runs, unrolled. */
  lemma CheckTwoIds(a: Outcome<string>, b: Outcome<string>)
    ensures CheckIds([a, b]) ==
              if a.Throws? then Throws(a.error)
              else if IsNullOrWhiteSpace(a.value) then Returns(None)
              else if b.Throws? then Throws(b.error)
              else if IsNullOrWhiteSpace(b.value) then Returns(None)
              else Returns(Some([a.value, b.value]))
  {
    var ids := [a, b];
    assert ids[1..] == [b] && [b][1..] == [];
    assert CheckIds([]) == Returns(Some([]));
    CheckIdsStep([b]);
    CheckIdsStep(ids);
    if Usable(a) && Usable(b) {
      assert [a.value] + ([b.value] + []) == [a.value, b.value];
    }
  }

  /** The chain of three guards the hook actions run, unrolled. */
  lemma CheckThreeIds(a: Outcome<string>, b: Outcome<string>, c: Outcome<string>)
    ensures CheckIds([a, b, c]) ==
              if a.Throws? then Throws(a.error)
              else if IsNullOrWhiteSpace(a.value) then Returns(None)
              else if b.Throws? then Throws(b.error)
              else if IsNullOrWhiteSpace(b.value) then Returns(None)
              else if c.Throws? then Throws(c.error)
              else if IsNullOrWhiteSpace(c.value) then Returns(None)
              else Returns(Some([a.value, b.value, c.value]))
  {
    var ids := [a, b, c];
    assert ids[1..] == [b, c] && [b, c][1..] == [c] && [c][1..] == [];
    assert CheckIds([]) == Returns(Some([]));
    CheckIdsStep([c]);
    CheckIdsStep([b, c]);
    CheckIdsStep(ids);
    if Usable(a) && Usable(b) && Usable(c) {
      assert [a.value] + ([b.value] + ([c.value] + [])) == [a.value, b.value, c.value];
    }
  }

  /** A call followed by two one-call traces: the three calls in order. */
  lemma ThreeCalls<T>(a: T, first: seq<T>, second: seq<T>)
    requires |first| == 1 && |second| == 1
    ensures [a] + first + second == [a, first[0], second[0]]
  {
  }

  /** A one-call trace, another, and a trace that opens with a third call: the three, then the rest. */
  lemma TraceOfThree<T>(first: seq<T>, second: seq<T>, c: T, rest: seq<T>, trace: seq<T>)
    requires |first| == 1 && |second| == 1 && trace == [c] + rest
    ensures first + second + trace == [first[0], second[0], c] + rest
  {
  }

  /** The response of an action that returns `IActionResult`. */
  datatype ActionResult = Ok | BadRequest | Unauthorized

  /** The route of the callback endpoint, appended to the public base URL. */
  const CallbackRoute := "/api/forge/callback/webhook"

  /** `Credentials.GetAppSetting`: the configured value, or null when it is not set. */
  function AppSetting(settings: map<string, string>, name: string): Option<string>
  {
    if name in settings then Some(settings[name]) else None
  }

  /** A delayed `ExtractMetadata(userId, projectId, versionId)` job. */
  datatype Job = ExtractMetadataJob(userId: string, projectId: string, versionId: string, delaySeconds: nat)

  /** The delay `WebhookCallback` gives its job, `TimeSpan.FromSeconds(30)`. */
  const JobDelaySeconds: nat := 30

  /** The Hangfire job store, reduced to the list of scheduled jobs. */
  class Scheduler {
    var jobs: seq<Job>

    constructor()
      ensures jobs == []
    {
      jobs := [];
    }

    /** `BackgroundJob.Schedule`: the job is appended. */
    method Schedule(job: Job)
      modifies this
      ensures jobs == old(jobs) + [job]
    {
      jobs := jobs + [job];
    }
  }

  /**
    The fields of a callback's JSON body that `WebhookCallback` reads;
    `None` stands for a missing field (or a missing enclosing object).
   */
  datatype CallbackBody = CallbackBody(
    hookEvent: Option<string>,   // hook.event
    createdBy: Option<string>,   // hook.createdBy
    projectId: Option<string>,   // hook.hookAttribute.projectId
    resourceUrn: Option<string>) // resourceUrn

  /** The event the callback acts on. */
  const WatchedEvent := "dm.version.added"

  /**
    The job a callback schedules: none when a field is missing (the
    `NullReferenceException` is swallowed by the catch-all) or when the
    event is not `WatchedEvent`.
   */
  function CallbackJob(body: CallbackBody): (job: Option<Job>)
    ensures job.Some? <==>
              && body.hookEvent == Some(WatchedEvent)
              && body.createdBy.Some? && body.projectId.Some? && body.resourceUrn.Some?
    ensures job.Some? ==>
              job.value == ExtractMetadataJob(body.createdBy.value, body.projectId.value, body.resourceUrn.value, 30)
  {
    match (body.hookEvent, body.createdBy, body.projectId, body.resourceUrn)
    case (Some(eventType), Some(userId), Some(projectId), Some(versionId)) =>
      if eventType != WatchedEvent then None
      else Some(ExtractMetadataJob(userId, projectId, versionId, JobDelaySeconds))
    case _ => None
  }

  /**
    The watched event is the wire name of `VersionAdded`, the one event the
    controller registers hooks for: its callbacks schedule the job and those
    of any other event do not.
   */
  lemma CallbackFilterIsVersionAdded(e: Event, userId: string, projectId: string, versionId: string)
    ensures var body := CallbackBody(Some(EnumToString(e)), Some(userId), Some(projectId), Some(versionId));
            CallbackJob(body).Some? <==> e == VersionAdded
  {
    if EnumToString(e) == WatchedEvent {
      EnumToStringInjective(e, VersionAdded);
    }
  }

  /** `DerivativesApi.GetManifestAsync`: the manifest's `status` (null when absent) for a token and URN, or a failure. */
  datatype DerivativesApi = DerivativesApi(manifestStatus: (string, string) -> Outcome<Option<string>>)

  /** The manifest status that makes `ExtractMetadata` throw so that Hangfire retries. */
  const InProgress := "inprogress"

  /**
    `ExtractMetadata`: fetch the user's credentials from the database, then
    the manifest of the Base64-encoded version URN. A missing credential,
    a failed request and an "inprogress" manifest all end in an exception,
    which the catch block rethrows. `base64` stands for `Base64Encode`.
   */
  function ExtractMetadata(userId: string, versionId: string, database: string -> Option<Credentials>,
                           derivatives: DerivativesApi, base64: string -> string): (run: (Outcome<()>, seq<Call>))
    ensures var (r, calls) := run;
            && |calls| >= 1 && calls[0] == DatabaseLookup(userId)
            && (database(userId).None? ==> r == Throws(NullReference) && |calls| == 1)
            && (database(userId).Some? ==>
                  var token := database(userId).value.tokenInternal;
                  var manifest := derivatives.manifestStatus(token, base64(versionId));
                  && calls == [DatabaseLookup(userId), ManifestLookup(token, base64(versionId))]
                  && (r.Returns? <==> manifest.Returns? && manifest.value != Some(InProgress))
                  && (manifest == Returns(Some(InProgress)) ==> r == Throws(Translating))
                  && (manifest.Throws? ==> r == Throws(manifest.error)))
  {
    match database(userId)
    case None => (Throws(NullReference), [DatabaseLookup(userId)])
    case Some(credentials) =>
      var token := credentials.tokenInternal;
      var urn := base64(versionId);
      var calls := [DatabaseLookup(userId), ManifestLookup(token, urn)];
      match derivatives.manifestStatus(token, urn)
      case Throws(e) => (Throws(e), calls)
      case Returns(status) =>
        if status == Some(InProgress) then (Throws(Translating), calls)
        else (Returns(()), calls)
  }

  /** The controller of one request: the credentials it loads and the application settings it reads. */
  class WebhookController {
    var credentials: Option<Credentials>
    const appSettings: map<string, string>

    constructor(appSettings: map<string, string>)
      ensures credentials == None && this.appSettings == appSettings
    {
      credentials := None;
      this.appSettings := appSettings;
    }

    /** `CallbackUrl`: the `FORGE_WEBHOOK_URL` setting (null reads as "") followed by the callback route. */
    function CallbackUrl(): (url: string)
      ensures |url| >= |CallbackRoute| && url[|url| - |CallbackRoute|..] == CallbackRoute
      ensures AppSetting(appSettings, "FORGE_WEBHOOK_URL").None? ==> url == CallbackRoute
      ensures AppSetting(appSettings, "FORGE_WEBHOOK_URL").Some? ==>
                var base := AppSetting(appSettings, "FORGE_WEBHOOK_URL").value;
                |url| == |base| + |CallbackRoute| && url[..|base|] == base
    {
      match AppSetting(appSettings, "FORGE_WEBHOOK_URL")
      case None => CallbackRoute
      case Some(base) => base + CallbackRoute
    }

    /**
      `GET api/forge/webhook`: the `VersionAdded` hooks of a folder. A blank
      folder or hub id, or no session, answers null before any Forge call;
      a malformed href throws. The session's credentials are kept in the
      `credentials` field once the ids have passed.
     */
    method GetHooks(folder: Option<string>, hub: Option<string>, session: Option<Credentials>, api: ForgeApi)
      returns (r: Outcome<Option<seq<Hook>>>, calls: seq<Call>)
      modifies this
      ensures var check := CheckIds([ExtractFolderIdFromHref(folder), ExtractHubIdFromHref(hub)]);
              && (check.Throws? ==> r == Throws(check.error) && calls == [] && credentials == old(credentials))
              && (check == Returns(None) ==> r == Returns(None) && calls == [] && credentials == old(credentials))
              && (check.Returns? && check.value.Some? ==>
                    && credentials == session
                    && (session.None? ==> r == Returns(None) && calls == [SessionLookup])
                    && (session.Some? ==>
                          var token := session.value.tokenInternal;
                          var folderId := check.value.value[0];
                          var hubId := check.value.value[1];
                          var listing := HooksRequest(token, VersionAdded, folderId, api.hubRegion(token, hubId));
                          && r == Returns(Some(api.hookList(listing)))
                          && calls == [SessionLookup, HubLookup(token, hubId), Send(listing)]))
    {
      calls := [];
      var check := ReadTwoIds(folder, hub);
      if check.Throws? {
        return Throws(check.error), calls;
      }
      if check.value.None? {
        return Returns(None), calls;
      }
      var ids := check.value.value;
      credentials := session;
      calls := [SessionLookup];
      if credentials.None? {
        return Returns(None), calls;
      }
      var webhooksApi := new DMWebhook(credentials.value.tokenInternal, CallbackUrl());
      var region, regionCalls := webhooksApi.GetHubRegion(api, ids[1]);
      var hooks, listCalls := webhooksApi.Hooks(api, VersionAdded, ids[0], region);
      r := Returns(Some(hooks));
      ThreeCalls(calls[0], regionCalls, listCalls);
      calls := calls + regionCalls + listCalls;
    }

    /** The guards `GetHooks` opens with: folder id, then hub id. */
    static method ReadTwoIds(folder: Option<string>, hub: Option<string>) returns (check: Outcome<Option<seq<string>>>)
      ensures check == CheckIds([ExtractFolderIdFromHref(folder), ExtractHubIdFromHref(hub)])
      ensures check.Returns? && check.value.Some? ==> |check.value.value| == 2
    {
      CheckTwoIds(ExtractFolderIdFromHref(folder), ExtractHubIdFromHref(hub));
      var folderId := ExtractFolderIdFromHref(folder);
      if folderId.Throws? {
        return Throws(folderId.error);
      }
      if IsNullOrWhiteSpace(folderId.value) {
        return Returns(None);
      }
      var hubId := ExtractHubIdFromHref(hub);
      if hubId.Throws? {
        return Throws(hubId.error);
      }
      if IsNullOrWhiteSpace(hubId.value) {
        return Returns(None);
      }
      check := Returns(Some([folderId.value, hubId.value]));
    }

    /** The guards the hook actions open with: folder, project and hub id, in that order. */
    static method ReadIds(input: HookInputData) returns (check: Outcome<Option<seq<string>>>)
      ensures check == CheckIds([FolderId(input), ProjectId(input), HubId(input)])
      ensures check.Returns? && check.value.Some? ==> |check.value.value| == 3
    {
      CheckThreeIds(FolderId(input), ProjectId(input), HubId(input));
      var folderId := FolderId(input);
      if folderId.Throws? {
        return Throws(folderId.error);
      }
      if IsNullOrWhiteSpace(folderId.value) {
        return Returns(None);
      }
      var projectId := ProjectId(input);
      if projectId.Throws? {
        return Throws(projectId.error);
      }
      if IsNullOrWhiteSpace(projectId.value) {
        return Returns(None);
      }
      var hubId := HubId(input);
      if hubId.Throws? {
        return Throws(hubId.error);
      }
      if IsNullOrWhiteSpace(hubId.value) {
        return Returns(None);
      }
      check := Returns(Some([folderId.value, projectId.value, hubId.value]));
    }

    /**
      `POST api/forge/webhook`: registers a `VersionAdded` hook on the
      folder, calling back `CallbackUrl()`. A blank folder, project or hub
      id answers 400 and no session 401, before any Forge call; a malformed
      href throws. The status of the registration is not looked at.
     */
    method CreateHook(input: HookInputData, session: Option<Credentials>, api: ForgeApi)
      returns (r: Outcome<ActionResult>, calls: seq<Call>)
      modifies this
      ensures var check := CheckIds([FolderId(input), ProjectId(input), HubId(input)]);
              && (check.Throws? ==> r == Throws(check.error) && calls == [] && credentials == old(credentials))
              && (check == Returns(None) ==> r == Returns(BadRequest) && calls == [] && credentials == old(credentials))
              && (check.Returns? && check.value.Some? ==>
                    && credentials == session
                    && (session.None? ==> r == Returns(Unauthorized) && calls == [SessionLookup])
                    && (session.Some? ==>
                          var token := session.value.tokenInternal;
                          var ids := check.value.value;
                          var request := CreateHookRequest(token, CallbackUrl(), VersionAdded, ids[1], ids[0],
                                                           api.hubRegion(token, ids[2]));
                          && r == Returns(Ok)
                          && calls == [SessionLookup, HubLookup(token, ids[2]), Send(request)]))
    {
      calls := [];
      var check := ReadIds(input);
      if check.Throws? {
        return Throws(check.error), calls;
      }
      if check.value.None? {
        return Returns(BadRequest), calls;
      }
      var ids := check.value.value;
      credentials := session;
      calls := [SessionLookup];
      if credentials.None? {
        return Returns(Unauthorized), calls;
      }
      var webhooksApi := new DMWebhook(credentials.value.tokenInternal, CallbackUrl());
      var region, regionCalls := webhooksApi.GetHubRegion(api, ids[2]);
      var status, createCalls := webhooksApi.CreateHook(api, VersionAdded, ids[1], ids[0], region);
      r := Returns(Ok);
      ThreeCalls(calls[0], regionCalls, createCalls);
      calls := calls + regionCalls + createCalls;
    }

    /**
      `DELETE api/forge/webhook`: deletes every `VersionAdded` hook of the
      folder, under the same guards as `CreateHook`. The statuses are not
      looked at; a repeated hook id in the listing makes the action throw.
     */
    method DeleteHook(input: HookInputData, session: Option<Credentials>, api: ForgeApi)
      returns (r: Outcome<ActionResult>, calls: seq<Call>)
      modifies this
      ensures var check := CheckIds([FolderId(input), ProjectId(input), HubId(input)]);
              && (check.Throws? ==> r == Throws(check.error) && calls == [] && credentials == old(credentials))
              && (check == Returns(None) ==> r == Returns(BadRequest) && calls == [] && credentials == old(credentials))
              && (check.Returns? && check.value.Some? ==>
                    && credentials == session
                    && (session.None? ==> r == Returns(Unauthorized) && calls == [SessionLookup]))
      ensures var check := CheckIds([FolderId(input), ProjectId(input), HubId(input)]);
              check.Returns? && check.value.Some? && session.Some? ==>
                var token := session.value.tokenInternal;
                var ids := check.value.value;
                var region := api.hubRegion(token, ids[2]);
                var listing := HooksRequest(token, VersionAdded, ids[0], region);
                var hooks := api.hookList(listing);
                var before := [SessionLookup, HubLookup(token, ids[2]), Send(listing)];
                && (r.Returns? <==> DistinctIds(hooks))
                && (r.Returns? ==> r.value == Ok && calls == before + DeleteCalls(token, VersionAdded, region, hooks))
                && (r.Throws? ==>
                      var k := FirstRepeat(hooks);
                      && r.error == DuplicateKey(hooks[k].hookId)
                      && calls == before + DeleteCalls(token, VersionAdded, region, hooks[..k + 1]))
    {
      calls := [];
      var check := ReadIds(input);
      if check.Throws? {
        return Throws(check.error), calls;
      }
      if check.value.None? {
        return Returns(BadRequest), calls;
      }
      var ids := check.value.value;
      credentials := session;
      calls := [SessionLookup];
      if credentials.None? {
        return Returns(Unauthorized), calls;
      }
      var webhooksApi := new DMWebhook(credentials.value.tokenInternal, CallbackUrl());
      var region, regionCalls := webhooksApi.GetHubRegion(api, ids[2]);
      var deleted, deleteCalls := webhooksApi.DeleteHook(api, VersionAdded, ids[0], region);
      ghost var token := webhooksApi.accessToken;
      ghost var listing := HooksRequest(token, VersionAdded, ids[0], region);
      ghost var hooks := api.hookList(listing);
      if deleted.Throws? {
        ghost var k := FirstRepeat(hooks);
        ghost var rest := DeleteCalls(token, VersionAdded, region, hooks[..k + 1]);
        assert deleteCalls == [Send(listing)] + rest;
        TraceOfThree(calls, regionCalls, Send(listing), rest, deleteCalls);
        calls := calls + regionCalls + deleteCalls;
        return Throws(deleted.error), calls;
      }
      TraceOfThree(calls, regionCalls, Send(listing), DeleteCalls(token, VersionAdded, region, hooks), deleteCalls);
      calls := calls + regionCalls + deleteCalls;
      r := Returns(Ok);
    }

    /**
      `POST api/forge/callback/webhook`: schedules `ExtractMetadata` for a
      "dm.version.added" callback and answers 200 whatever the body holds.
     */
    method WebhookCallback(body: CallbackBody, scheduler: Scheduler) returns (result: ActionResult)
      modifies scheduler
      ensures result == Ok
      ensures CallbackJob(body).None? ==> scheduler.jobs == old(scheduler.jobs)
      ensures CallbackJob(body).Some? ==> scheduler.jobs == old(scheduler.jobs) + [CallbackJob(body).value]
    {
      if body.hookEvent.None? || body.createdBy.None? || body.projectId.None? || body.resourceUrn.None? {
        return Ok;
      }
      var eventType := body.hookEvent.value;
      if eventType != WatchedEvent {
        return Ok;
      }
      scheduler.Schedule(ExtractMetadataJob(body.createdBy.value, body.projectId.value, body.resourceUrn.value,
                                            JobDelaySeconds));
      return Ok;
    }
  }
}
