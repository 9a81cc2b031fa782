/** Downloading, inspecting and publishing the payload bundle of a snapshot. */
module PayloadStaging {
  import opened Outcomes
  import opened Inventory
  import opened Payloads

  datatype Location = Location(batch: Role, path: seq<string>)

  /** A downloaded file whose header names a package. */
  datatype Candidate = Candidate(loc: Location, signers: seq<string>)

  /** The staging directories and the published bundle; with faults, any operation may fail. */
  class Store {
    const tools: Tools
    const faults: bool
    var staging: bool
    var incoming: map<Location, Blob>
    var bundle: map<string, Blob>
    var published: Option<map<string, Blob>>
    var downloads: seq<set<Identity>>

    method Attempt() returns (o: Outcome<()>)
      ensures !faults ==> o.Returned?
    {
      var failed: bool := *;
      return if failed && faults then Raised else Returned(());
    }

    /** The package manager leaves whatever it likes in the directory of a batch. */
    method Download(role: Role, batch: set<Identity>)
      modifies this`incoming, this`downloads
      ensures downloads == old(downloads) + [batch]
      ensures forall loc :: loc in old(incoming) && loc.batch != role ==>
                loc in incoming && incoming[loc] == old(incoming)[loc]
    {
      var got: map<Location, Blob> := *;
      incoming := incoming + map loc | loc in got && loc.batch == role :: got[loc];
      downloads := downloads + [batch];
    }
  }

  // ----- what is requested

  datatype Request = Request(order: seq<Identity>, roles: map<Identity, set<Role>>)

  ghost predicate Requests(r: Request, base: set<Identity>, forward: set<Identity>) {
    && Distinct(r.order) && Elements(r.order) == r.roles.Keys == base + forward
    && forall id :: id in r.roles ==>
         (Baseline in r.roles[id] <==> id in base) && (Forward in r.roles[id] <==> id in forward)
  }

  function With(ids: set<Identity>, id: Identity, wanted: bool): set<Identity> { if wanted then ids + {id} else ids }

  lemma OneMoreRequest(r: Request, base: set<Identity>, forward: set<Identity>, id: Identity, role: Role)
    requires Requests(r, base, forward)
    ensures Requests(Requested(r, id, role), With(base, id, role == Baseline), With(forward, id, role == Forward))
  {
    if id !in r.roles { OrderGrows(r.order, id); }
    assert Requested(r, id, role).roles.Keys == r.roles.Keys + {id};
  }

  lemma OrderGrows(order: seq<Identity>, id: Identity)
    requires Distinct(order) && id !in Elements(order)
    ensures Distinct(order + [id]) && Elements(order + [id]) == Elements(order) + {id}
  {
    assert id !in order;
  }

  /** Merge both sides: one request for each package, with the sides that want it. */
  method MergeRequests(packages: seq<Identity>, forward: seq<Identity>) returns (r: Request)
    ensures Requests(r, Elements(packages), Elements(forward))
  {
    r := Request([], map[]);
    for n := 0 to |packages|
      invariant Requests(r, Elements(packages[..n]), {})
    {
      assert Elements(packages[..n + 1]) == Elements(packages[..n]) + {packages[n]};
      OneMoreRequest(r, Elements(packages[..n]), {}, packages[n], Baseline);
      r := Requested(r, packages[n], Baseline);
    }
    assert packages[..|packages|] == packages;
    for n := 0 to |forward|
      invariant Requests(r, Elements(packages), Elements(forward[..n]))
    {
      assert Elements(forward[..n + 1]) == Elements(forward[..n]) + {forward[n]};
      OneMoreRequest(r, Elements(packages), Elements(forward[..n]), forward[n], Forward);
      r := Requested(r, forward[n], Forward);
    }
    assert forward[..|forward|] == forward;
  }

  function Requested(r: Request, id: Identity, role: Role): Request {
    if id in r.roles then r.(roles := r.roles[id := r.roles[id] + {role}])
    else Request(r.order + [id], r.roles[id := {role}])
  }

  /** What each batch downloads: the baseline, then what only the forward side wants. */
  function Batch(r: Request, role: Role): set<Identity> {
    set id | id in r.roles && role in r.roles[id] && (role == Forward ==> Baseline !in r.roles[id])
  }

  lemma BatchesPartition(r: Request, base: set<Identity>, forward: set<Identity>)
    requires Requests(r, base, forward)
    ensures Batch(r, Baseline) * Batch(r, Forward) == {}
            && Batch(r, Baseline) + Batch(r, Forward) == base + forward == r.roles.Keys
  {
  }

  function SortedRoles(roles: set<Role>): seq<Role> {
    (if Baseline in roles then [Baseline] else []) + (if Forward in roles then [Forward] else [])
  }

  // ----- one batch

  ghost predicate Found(tools: Tools, id: Identity, c: Candidate, incoming: map<Location, Blob>) {
    c.loc in incoming && tools.inspect(incoming[c.loc].content) == Some(Header(id, c.signers))
  }

  /** Every candidate is a downloaded file whose header names its package. */
  ghost predicate AllFound(tools: Tools, candidates: map<Identity, Candidate>, incoming: map<Location, Blob>) {
    forall id :: id in candidates ==> Found(tools, id, candidates[id], incoming)
  }

  predicate EndsWith(name: string, suffix: string) {
    |suffix| <= |name| && name[|name| - |suffix|..] == suffix
  }

  predicate IsCandidate(tools: Tools, loc: Location) {
    loc.path != [] && EndsWith(loc.path[|loc.path| - 1], tools.Extension())
  }

  /** Inspect the files of one batch: they must be one-to-one with the packages asked for. */
  method InspectBatch(tools: Tools, incoming: map<Location, Blob>, role: Role, batch: set<Identity>,
                      earlier: map<Identity, Candidate>, staged: nat)
    returns (o: Outcome<map<Identity, Candidate>>, total: nat)
    ensures o.Returned? ==> o.value.Keys == batch && batch * earlier.Keys == {} && AllFound(tools, o.value, incoming)
    ensures o.Returned? ==> total <= MAX_TOTAL_BYTES && forall id :: id in o.value ==> o.value[id].loc.batch == role
  {
    var found: map<Identity, Candidate> := map[];
    total := staged;
    var rest := set loc | loc in incoming && loc.batch == role;
    while rest != {}
      invariant rest <= incoming.Keys && forall loc :: loc in rest ==> loc.batch == role
      invariant AllFound(tools, found, incoming) && found.Keys * earlier.Keys == {}
      invariant forall id :: id in found ==> found[id].loc.batch == role
    {
      var loc :| loc in rest;
      var content := incoming[loc].content;
      if |content| > MAX_PAYLOAD_BYTES { return Raised, total; }
      total := total + |content|;
      if IsCandidate(tools, loc) {
        var header := tools.inspect(content);
        if header.None? || header.value.id in found || header.value.id in earlier { return Raised, total; }
        found := found[header.value.id := Candidate(loc, header.value.signers)];
      }
      rest := rest - {loc};
    }
    if total > MAX_TOTAL_BYTES || found.Keys != batch { return Raised, total; }
    return Returned(found), total;
  }

  /** Download and inspect one batch, unless nothing is asked for. */
  method StageBatch(w: Store, role: Role, batch: set<Identity>, earlier: map<Identity, Candidate>, staged: nat)
    returns (o: Outcome<map<Identity, Candidate>>, total: nat)
    requires AllFound(w.tools, earlier, w.incoming) && forall id :: id in earlier ==> earlier[id].loc.batch != role
    modifies w`incoming, w`downloads
    ensures o.Returned? ==> w.downloads == old(w.downloads) + if batch == {} then [] else [batch]
    ensures o.Returned? ==> o.value.Keys == earlier.Keys + batch && batch * earlier.Keys == {} && AllFound(w.tools,
        o.value, w.incoming)
    ensures o.Returned? ==> forall id :: id in o.value ==> id in earlier || o.value[id].loc.batch == role
  {
    if batch == {} { return Returned(earlier), staged; }
    o := Raised;
    total := staged;
    var tried := w.Attempt();
    if tried.Raised? { return; }
    w.Download(role, batch);
    tried := w.Attempt();
    if tried.Raised? { return; }
    var found;
    found, total := InspectBatch(w.tools, w.incoming, role, batch, earlier, staged);
    if found.Raised? { return; }
    o := Returned(earlier + found.value);
  }

  // ----- moving payloads into the bundle

  /** Hash one candidate and move it into the bundle under its digest. */
  method MovePayload(w: Store, id: Identity, c: Candidate, roles: seq<Role>, total: nat) returns (o: Outcome<Payload>)
    requires w.tools.Sound() && Found(w.tools, id, c, w.incoming) && roles != [] && Distinct(roles)
    modifies w`incoming, w`bundle
    ensures o.Returned? ==> o.value.id == id && o.value.roles == roles && total + o.value.size <= MAX_TOTAL_BYTES
    ensures o.Returned? ==> o.value.filename !in old(w.bundle) && EntryOk(w.tools, o.value, w.bundle)
    ensures o.Returned? ==> w.bundle == old(w.bundle)[o.value.filename := Blob(old(w.incoming)[c.loc].content, true)]
    ensures w.incoming == old(w.incoming) || w.incoming == old(w.incoming) - {c.loc}
  {
    var _ :- w.Attempt();
    var content := w.incoming[c.loc].content;
    var digest, size := w.tools.digest(content), |content|;
    var filename := digest + w.tools.Extension();
    if size == 0 || size > MAX_PAYLOAD_BYTES || total + size > MAX_TOTAL_BYTES || filename in w.bundle {
      return Raised;
    }
    var _ :- w.Attempt();
    w.incoming, w.bundle := w.incoming - {c.loc}, w.bundle[filename := Blob(content, true)];
    var _ :- w.Attempt();
    return Returned(Payload(id, w.tools.isDeb, filename, digest, size, w.tools.isDeb, roles, c.signers));
  }

  /** The entry has the roles of the sides that want its package. */
  predicate RolesOf(r: Request, e: Payload) { e.id in r.roles && e.roles == SortedRoles(r.roles[e.id]) }

  /** The first n requests are in the bundle. */
  ghost predicate Moved(tools: Tools, r: Request, n: nat, entries: seq<Payload>, bundle: map<string, Blob>) {
    && n <= |r.order| && Ids(entries) == r.order[..n] && (forall i :: 0 <= i < |r.order| ==> r.order[i] in r.roles)
    && (forall i :: 0 <= i < |entries| ==> RolesOf(r, entries[i]))
    && EntriesOk(tools, entries, bundle) && Named(entries, bundle) && TotalSize(entries) <= MAX_TOTAL_BYTES
  }

  /** The files of the bundle are those of the entries, which all differ. */
  ghost predicate Named(entries: seq<Payload>, bundle: map<string, Blob>) {
    Distinct(Filenames(entries)) && bundle.Keys == Elements(Filenames(entries))
  }

  /** New files leave the entries in place. */
  lemma {:induction false} EntriesStayOk(tools: Tools, entries: seq<Payload>, bundle: map<string, Blob>, name: string,
                                         blob: Blob)
    requires EntriesOk(tools, entries, bundle) && name !in bundle
    ensures EntriesOk(tools, entries, bundle[name := blob])
    decreases |entries|
  {
    if entries != [] { EntriesStayOk(tools, entries[..|entries| - 1], bundle, name, blob); }
  }

  lemma OneMoreName(entries: seq<Payload>, bundle: map<string, Blob>, e: Payload, blob: Blob)
    requires Named(entries, bundle) && e.filename !in bundle
    ensures Named(entries + [e], bundle[e.filename := blob])
  {
    assert Filenames(entries + [e]) == Filenames(entries) + [e.filename];
    assert e.filename !in Filenames(entries);
  }

  lemma OneMoreEntryOk(tools: Tools, entries: seq<Payload>, bundle: map<string, Blob>, e: Payload, blob: Blob)
    requires EntriesOk(tools, entries, bundle) && e.filename !in bundle && EntryOk(tools, e, bundle[e.filename := blob])
    ensures EntriesOk(tools, entries + [e], bundle[e.filename := blob])
            && TotalSize(entries + [e]) == TotalSize(entries) + e.size
  {
    var more := entries + [e];
    assert more[..|more| - 1] == entries && more[|more| - 1] == e;
    EntriesStayOk(tools, entries, bundle, e.filename, blob);
  }

  lemma OneMoreId(r: Request, n: nat, entries: seq<Payload>, e: Payload)
    requires n < |r.order| && Ids(entries) == r.order[..n] && e.id == r.order[n]
    ensures Ids(entries + [e]) == r.order[..n + 1]
  {
    assert Ids(entries + [e]) == Ids(entries) + [e.id];
  }

  lemma OneMoreMoved(tools: Tools, r: Request, n: nat, entries: seq<Payload>, bundle: map<string, Blob>, e: Payload,
                     blob: Blob)
    requires Moved(tools, r, n, entries, bundle) && n < |r.order| && e.id == r.order[n]
             && e.roles == SortedRoles(r.roles[e.id])
    requires e.filename !in bundle && EntryOk(tools, e, bundle[e.filename := blob])
             && TotalSize(entries) + e.size <= MAX_TOTAL_BYTES
    ensures Moved(tools, r, n + 1, entries + [e], bundle[e.filename := blob])
    ensures TotalSize(entries + [e]) == TotalSize(entries) + e.size
  {
    OneMoreEntryOk(tools, entries, bundle, e, blob);
    OneMoreId(r, n, entries, e);
    OneMoreName(entries, bundle, e, blob);
    OneMoreRole(r, entries, e);
  }

  lemma OneMoreRole(r: Request, entries: seq<Payload>, e: Payload)
    requires forall i :: 0 <= i < |entries| ==> RolesOf(r, entries[i])
    requires RolesOf(r, e)
    ensures forall i :: 0 <= i < |entries + [e]| ==> RolesOf(r, (entries + [e])[i])
  {
  }

  /** Moving one candidate away leaves the candidates of other packages. */
  lemma StillFound(tools: Tools, r: Request, n: nat, candidates: map<Identity, Candidate>,
                   incoming: map<Location, Blob>, left: map<Location, Blob>)
    requires Distinct(r.order) && n < |r.order| && forall i :: 0 <= i < |r.order| ==> r.order[i] in candidates
    requires forall k :: n <= k < |r.order| ==> Found(tools, r.order[k], candidates[r.order[k]], incoming)
    requires left == incoming || left == incoming - {candidates[r.order[n]].loc}
    ensures forall k :: n < k < |r.order| ==> Found(tools, r.order[k], candidates[r.order[k]], left)
  {
    forall k | n < k < |r.order|
      ensures candidates[r.order[k]].loc != candidates[r.order[n]].loc
    {
      assert Found(tools, r.order[k], candidates[r.order[k]], incoming)
          && Found(tools, r.order[n], candidates[r.order[n]], incoming);
      assert r.order[n] != r.order[k];
    }
  }

  method MoveAll(w: Store, r: Request, candidates: map<Identity, Candidate>) returns (o: Outcome<seq<Payload>>)
    requires w.tools.Sound() && w.bundle == map[] && Distinct(r.order)
             && Elements(r.order) == r.roles.Keys == candidates.Keys
    requires AllFound(w.tools, candidates, w.incoming) && forall id :: id in r.roles ==> r.roles[id] != {}
    modifies w`incoming, w`bundle
    ensures o.Returned? ==> Moved(w.tools, r, |r.order|, o.value, w.bundle)
  {
    var entries := [];
    assert forall i :: 0 <= i < |r.order| ==> r.order[i] in Elements(r.order);
    for n := 0 to |r.order|
      invariant Moved(w.tools, r, n, entries, w.bundle)
      invariant forall k :: n <= k < |r.order| ==> Found(w.tools, r.order[k], candidates[r.order[k]], w.incoming)
    {
      var id := r.order[n];
      ghost var incoming, bundle := w.incoming, w.bundle;
      SortedRolesAreDistinct(r.roles[id]);
      var e :- MovePayload(w, id, candidates[id], SortedRoles(r.roles[id]), TotalSize(entries));
      OneMoreMoved(w.tools, r, n, entries, bundle, e, Blob(incoming[candidates[id].loc].content, true));
      StillFound(w.tools, r, n, candidates, incoming, w.incoming);
      entries := entries + [e];
    }
    return Returned(entries);
  }

  lemma SortedRolesAreDistinct(roles: set<Role>)
    requires roles != {}
    ensures SortedRoles(roles) != [] && Distinct(SortedRoles(roles)) && Elements(SortedRoles(roles)) == roles
  {
    var role :| role in roles;
    assert role == Baseline || role == Forward;
    forall x: Role
      ensures x in SortedRoles(roles) <==> x in roles
    {
      assert x == Baseline || x == Forward;
    }
  }

  // ----- staging

  /** The moved payloads make a valid bundle for both sides. */
  lemma MovedIsValid(tools: Tools, r: Request, directory: string, packages: seq<Identity>, forward: seq<Identity>,
                     entries: seq<Payload>, files: map<string, Blob>)
    requires Requests(r, Elements(packages), Elements(forward)) && Moved(tools, r, |r.order|, entries, files)
    requires RequestOk(packages) && RequestOk(forward) && |packages| <= MAX_BASELINE && |r.order| <= MAX_ENTRIES
    ensures ValidBundle(tools, Bundle(directory, entries, TotalSize(entries)), directory, packages, Some(forward),
                        files)
  {
    assert r.order[..|r.order|] == r.order;
    assert |entries| == |Ids(entries)| == |r.order|;
    RolesAreSides(r, Elements(packages), Elements(forward), entries, Baseline);
    RolesAreSides(r, Elements(packages), Elements(forward), entries, Forward);
  }

  lemma RolesAreSides(r: Request, base: set<Identity>, forward: set<Identity>, entries: seq<Payload>, role: Role)
    requires Requests(r, base, forward) && Ids(entries) == r.order
    requires forall i :: 0 <= i < |entries| ==>
              entries[i].id in r.roles && entries[i].roles == SortedRoles(r.roles[entries[i].id])
    ensures WithRole(entries, role) == if role == Baseline then base else forward
  {
    var side := if role == Baseline then base else forward;
    forall id
      ensures id in WithRole(entries, role) <==> id in side
    {
      if id in side {
        assert id in Elements(r.order);
        var i :| 0 <= i < |r.order| && r.order[i] == id;
        SortedRolesAreDistinct(r.roles[id]);
        assert role in Elements(entries[i].roles) && entries[i] in entries;
      }
      if id in WithRole(entries, role) {
        var e :| e in entries && role in e.roles && e.id == id;
        var i :| 0 <= i < |entries| && entries[i] == e;
        assert r.roles[id] != {};
        SortedRolesAreDistinct(r.roles[id]);
        assert role in Elements(SortedRoles(r.roles[id]));
      }
    }
  }

  /** Every package asked for is downloaded in exactly one batch. */
  ghost predicate DownloadsCover(downloads: seq<set<Identity>>, base: set<Identity>, forward: set<Identity>) {
    && (forall i, j :: 0 <= i < j < |downloads| ==> downloads[i] * downloads[j] == {})
    && forall id :: id in base + forward <==> exists i :: 0 <= i < |downloads| && id in downloads[i]
  }

  lemma TwoBatchesCover(r: Request, base: set<Identity>, forward: set<Identity>)
    requires Requests(r, base, forward)
    ensures DownloadsCover(Downloads(Batch(r, Baseline), Batch(r, Forward)), base, forward)
  {
    BatchesPartition(r, base, forward);
    var downloads := Downloads(Batch(r, Baseline), Batch(r, Forward));
    var first := if Batch(r, Baseline) == {} then 0 else 1;
    forall id | id in base + forward
      ensures exists i :: 0 <= i < |downloads| && id in downloads[i]
    {
      if id in Batch(r, Baseline) { assert id in downloads[0]; } else { assert id in downloads[first]; }
    }
  }

  function Downloads(first: set<Identity>, second: set<Identity>): seq<set<Identity>> {
    (if first == {} then [] else [first]) + if second == {} then [] else [second]
  }

  /** Download and inspect both batches. */
  method StageBoth(w: Store, first: set<Identity>, second: set<Identity>) returns (o: Outcome<map<Identity, Candidate>>)
    requires w.downloads == []
    modifies w`incoming, w`downloads
    ensures o.Returned? ==> o.value.Keys == first + second && AllFound(w.tools, o.value, w.incoming)
    ensures o.Returned? ==> w.downloads == Downloads(first, second)
  {
    var total;
    o, total := StageBatch(w, Baseline, first, map[], 0);
    if o.Raised? { return; }
    o, total := StageBatch(w, Forward, second, o.value, total);
  }

  method StageBatches(w: Store, r: Request, ghost base: set<Identity>, ghost forward: set<Identity>)
    returns (o: Outcome<map<Identity, Candidate>>)
    requires Requests(r, base, forward) && w.downloads == []
    modifies w`incoming, w`downloads
    ensures o.Returned? ==> o.value.Keys == r.roles.Keys && AllFound(w.tools, o.value, w.incoming)
    ensures o.Returned? ==> DownloadsCover(w.downloads, base, forward)
  {
    o := StageBoth(w, Batch(r, Baseline), Batch(r, Forward));
    BatchesPartition(r, base, forward);
    TwoBatchesCover(r, base, forward);
  }

  /** Stage everything that is requested, and move it into the bundle. */
  method StageRequests(w: Store, r: Request, ghost base: set<Identity>, ghost forward: set<Identity>)
    returns (o: Outcome<seq<Payload>>)
    requires w.tools.Sound() && Requests(r, base, forward) && w.downloads == [] && w.bundle == map[]
    modifies w`incoming, w`bundle, w`downloads
    ensures o.Returned? ==> Moved(w.tools, r, |r.order|, o.value, w.bundle)
    ensures o.Returned? ==> DownloadsCover(w.downloads, base, forward)
  {
    NonEmptyRequests(r, base, forward);
    var candidates :- StageBatches(w, r, base, forward);
    o := MoveAll(w, r, candidates);
  }

  lemma NonEmptyRequests(r: Request, base: set<Identity>, forward: set<Identity>)
    requires Requests(r, base, forward)
    ensures Distinct(r.order) && Elements(r.order) == r.roles.Keys && forall id :: id in r.roles ==> r.roles[id] != {}
  {
    forall id | id in r.roles
      ensures r.roles[id] != {}
    {
      assert Baseline in r.roles[id] || Forward in r.roles[id];
    }
  }

  /** Everything up to the renaming of the staged bundle to its final name. */
  method AssembleBundle(w: Store, directory: string, packages: seq<Identity>, forward: seq<Identity>)
    returns (o: Outcome<Bundle>)
    requires w.tools.Sound()
    modifies w`incoming, w`bundle, w`downloads, w`staging
    ensures o.Returned? ==> w.published.None?
    ensures o.Returned? ==> ValidBundle(w.tools, o.value, directory, packages, Some(forward), w.bundle)
    ensures o.Returned? ==> DownloadsCover(w.downloads, Elements(packages), Elements(forward))
  {
    if !RequestOk(packages) || !RequestOk(forward) || |packages| > MAX_BASELINE { return Raised; }
    var r := MergeRequests(packages, forward);
    if |r.order| > MAX_ENTRIES { return Raised; }
    var _ :- w.Attempt();
    if w.published.Some? || w.staging { return Raised; }
    w.staging, w.incoming, w.bundle, w.downloads := true, map[], map[], [];
    var entries :- StageRequests(w, r, Elements(packages), Elements(forward));
    MovedIsValid(w.tools, r, directory, packages, forward, entries, w.bundle);
    return Returned(Bundle(directory, entries, TotalSize(entries)));
  }

  /** Discard what staging left; a failure to do so is ignored. */
  method Discard(w: Store, publishedHere: bool)
    modifies w`incoming, w`bundle, w`staging, w`published
    ensures !publishedHere ==> w.published == old(w.published)
    ensures w.published == old(w.published) || w.published.None?
    ensures !w.faults ==> !w.staging && (publishedHere ==> w.published.None?)
  {
    var tried := w.Attempt();
    if tried.Returned? { w.staging, w.incoming, w.bundle := false, map[], map[]; }
    tried := w.Attempt();
    if publishedHere && tried.Returned? { w.published := None; }
  }

  /** Download, authenticate and publish the bundle of one snapshot. */
  method StagePackagePayloads(w: Store, directory: string, packages: seq<Identity>, forward: seq<Identity>)
    returns (o: Outcome<Bundle>)
    requires w.tools.Sound()
    modifies w
    ensures o.Returned? ==>
              && w.published.Some?
              && ValidBundle(w.tools, o.value, directory, packages, Some(forward), w.published.value)
    ensures o.Returned? ==> old(w.published).None? && DownloadsCover(w.downloads, Elements(packages), Elements(forward))
    ensures o.Raised? && (!w.faults || old(w.published).Some?) ==> w.published == old(w.published)
    ensures !w.faults ==> !w.staging
  {
    ghost var before := w.published;
    var assembled := AssembleBundle(w, directory, packages, forward);
    if assembled.Raised? {
      Discard(w, false);
      return Raised;
    }
    var renamed := w.Attempt();
    if renamed.Raised? {
      Discard(w, false);
      return Raised;
    }
    w.published := Some(w.bundle);
    var paths := ValidatePackagePayloads(w.tools, assembled.value, directory, packages, Some(forward),
                                         w.published.value);
    assert paths.Some?;
    var synced := w.Attempt();
    o := if synced.Returned? && paths.Some? then assembled else Raised;
    Discard(w, o.Raised?);
  }
}
