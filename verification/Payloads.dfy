/** Staging a snapshot's package payloads, and validating a published bundle. */
module Payloads {
  import opened Outcomes
  import opened Inventory

  const MAX_PAYLOAD_BYTES := 8 * 1024 * 1024 * 1024
  const MAX_TOTAL_BYTES := 64 * 1024 * 1024 * 1024
  const MAX_BASELINE := 4096
  const MAX_ENTRIES := 8192

  type Content = seq<bv8>

  datatype Header = Header(id: Identity, signers: seq<string>)

  datatype Role = Baseline | Forward

  datatype Payload = Payload(id: Identity, isDeb: bool, filename: string, sha256: string, size: nat,
                             fromRepository: bool, roles: seq<Role>, signers: seq<string>)

  datatype Bundle = Bundle(directory: string, packages: seq<Payload>, total: nat)

  datatype Blob = Blob(content: Content, privateMode: bool)

  predicate Hex(s: string) { forall i :: 0 <= i < |s| ==> '0' <= s[i] <= '9' || 'a' <= s[i] <= 'f' }

  predicate SignersOk(isDeb: bool, signers: seq<string>) {
    && (isDeb <==> signers == [])
    && forall i :: 0 <= i < |signers| ==> 8 <= |signers[i]| <= 40 && Hex(signers[i])
  }

  /** The hash and the package tools, as functions of the bytes. */
  datatype Tools = Tools(isDeb: bool, digest: Content -> string, inspect: Content -> Option<Header>) {
    function Extension(): string { if isDeb then ".deb" else ".rpm" }

    /** Digests are 64 hexadecimal digits, and only acceptable signatures are reported. */
    ghost predicate Sound() {
      && (forall c :: |digest(c)| == 64 && Hex(digest(c)))
      && (forall c :: inspect(c).Some? ==> SignersOk(isDeb, inspect(c).value.signers))
    }
  }

  // ----- what a valid bundle is

  predicate Complete(id: Identity) { id.name != "" && id.arch != "" && id.version != "" }

  predicate Distinct<T(==)>(s: seq<T>) { forall i, j :: 0 <= i < j < |s| ==> s[i] != s[j] }

  predicate RequestOk(ids: seq<Identity>) {
    Distinct(ids) && forall i :: 0 <= i < |ids| ==> Complete(ids[i])
  }

  function Ids(packages: seq<Payload>): (ids: seq<Identity>)
    ensures |ids| == |packages| && forall i :: 0 <= i < |ids| ==> ids[i] == packages[i].id
  {
    seq(|packages|, i requires 0 <= i < |packages| => packages[i].id)
  }

  function Filenames(packages: seq<Payload>): (names: seq<string>)
    ensures |names| == |packages| && forall i :: 0 <= i < |names| ==> names[i] == packages[i].filename
  {
    seq(|packages|, i requires 0 <= i < |packages| => packages[i].filename)
  }

  function Elements<T(==)>(s: seq<T>): set<T> { set x | x in s }

  function WithRole(packages: seq<Payload>, role: Role): set<Identity> {
    set p | p in packages && role in p.roles :: p.id
  }

  function TotalSize(packages: seq<Payload>): nat {
    if packages == [] then 0 else TotalSize(packages[..|packages| - 1]) + packages[|packages| - 1].size
  }

  predicate EntryOk(tools: Tools, e: Payload, files: map<string, Blob>) {
    && e.isDeb == tools.isDeb && e.fromRepository == tools.isDeb
    && |e.sha256| == 64 && Hex(e.sha256) && e.filename == e.sha256 + tools.Extension()
    && 0 < e.size <= MAX_PAYLOAD_BYTES && e.roles != [] && Distinct(e.roles) && SignersOk(e.isDeb, e.signers)
    && e.filename in files && files[e.filename].privateMode
    && tools.digest(files[e.filename].content) == e.sha256 && |files[e.filename].content| == e.size
    && tools.inspect(files[e.filename].content) == Some(Header(e.id, e.signers))
  }

  predicate ManifestOk(bundle: Bundle, directory: string, packages: seq<Identity>, forward: Option<seq<Identity>>) {
    && RequestOk(packages) && |packages| <= MAX_BASELINE && |bundle.packages| <= MAX_ENTRIES
    && (forward.Some? ==> RequestOk(forward.value))
    && bundle.directory == directory && Distinct(Ids(bundle.packages))
    && WithRole(bundle.packages, Baseline) == Elements(packages)
    && (forward.Some? ==> WithRole(bundle.packages, Forward) == Elements(forward.value))
    && Distinct(Filenames(bundle.packages))
  }

  /** A bundle directory holds exactly what its manifest says, and the manifest what was requested. */
  predicate ValidBundle(tools: Tools, bundle: Bundle, directory: string, packages: seq<Identity>,
                        forward: Option<seq<Identity>>, files: map<string, Blob>) {
    && ManifestOk(bundle, directory, packages, forward)
    && files.Keys == Elements(Filenames(bundle.packages))
    && EntriesOk(tools, bundle.packages, files)
    && TotalSize(bundle.packages) == bundle.total && bundle.total <= MAX_TOTAL_BYTES
  }

  lemma {:induction false} PrefixIsSmaller(packages: seq<Payload>, n: nat)
    requires n <= |packages|
    ensures TotalSize(packages[..n]) <= TotalSize(packages)
    decreases |packages|
  {
    if n < |packages| {
      PrefixIsSmaller(packages[..|packages| - 1], n);
      assert packages[..|packages| - 1][..n] == packages[..n];
    } else {
      assert packages[..n] == packages;
    }
  }

  predicate EntriesOk(tools: Tools, entries: seq<Payload>, files: map<string, Blob>) {
    entries == [] || (EntriesOk(tools, entries[..|entries| - 1], files)
                      && EntryOk(tools, entries[|entries| - 1], files))
  }

  lemma {:induction false} EachEntryOk(tools: Tools, entries: seq<Payload>, files: map<string, Blob>, i: nat)
    requires EntriesOk(tools, entries, files) && i < |entries|
    ensures EntryOk(tools, entries[i], files)
    decreases |entries|
  {
    if i < |entries| - 1 { EachEntryOk(tools, entries[..|entries| - 1], files, i); }
  }

  /** Entries before a given one, then that one. */
  lemma {:induction false} OneMoreEntry(tools: Tools, entries: seq<Payload>, n: nat, files: map<string, Blob>)
    requires n < |entries|
    ensures EntriesOk(tools, entries[..n + 1], files) <==>
              EntriesOk(tools, entries[..n], files) && EntryOk(tools, entries[n], files)
    ensures EntriesOk(tools, entries, files) ==> EntryOk(tools, entries[n], files)
    ensures TotalSize(entries[..n + 1]) == TotalSize(entries[..n]) + entries[n].size <= TotalSize(entries)
  {
    assert entries[..n + 1][..n] == entries[..n] && entries[..n + 1][n] == entries[n];
    PrefixIsSmaller(entries, n + 1);
    if EntriesOk(tools, entries, files) { EachEntryOk(tools, entries, files, n); }
  }

  /** The file of every entry. */
  ghost predicate Locates(paths: map<Identity, string>, entries: seq<Payload>) {
    && (forall i :: 0 <= i < |entries| ==> entries[i].id in paths && paths[entries[i].id] == entries[i].filename)
    && forall id :: id in paths ==> exists i :: 0 <= i < |entries| && entries[i].id == id
  }

  lemma LocatesOneMore(paths: map<Identity, string>, entries: seq<Payload>, n: nat)
    requires n < |entries| && Distinct(Ids(entries)) && Locates(paths, entries[..n])
    ensures Locates(paths[entries[n].id := entries[n].filename], entries[..n + 1])
  {
  }

  /** Hash and inspect every file of a bundle. */
  method ValidateEntries(tools: Tools, entries: seq<Payload>, files: map<string, Blob>)
    returns (total: nat, paths: Option<map<Identity, string>>)
    requires Distinct(Ids(entries))
    ensures paths.Some? <==> EntriesOk(tools, entries, files) && TotalSize(entries) <= MAX_TOTAL_BYTES
    ensures paths.Some? ==> total == TotalSize(entries) && Locates(paths.value, entries)
  {
    var found: map<Identity, string> := map[];
    total := 0;
    for n := 0 to |entries|
      invariant EntriesOk(tools, entries[..n], files) && Locates(found, entries[..n])
      invariant total == TotalSize(entries[..n]) <= MAX_TOTAL_BYTES
    {
      OneMoreEntry(tools, entries, n, files);
      if !EntryOk(tools, entries[n], files) { return total, None; }
      total := total + entries[n].size;
      if total > MAX_TOTAL_BYTES { return total, None; }
      LocatesOneMore(found, entries, n);
      found := found[entries[n].id := entries[n].filename];
    }
    assert entries[..|entries|] == entries;
    return total, Some(found);
  }

  /** Validate a complete bundle and return its exact local files. */
  method ValidatePackagePayloads(tools: Tools, bundle: Bundle, directory: string, packages: seq<Identity>,
                                 forward: Option<seq<Identity>>, files: map<string, Blob>)
    returns (paths: Option<map<Identity, string>>)
    ensures paths.Some? <==> ValidBundle(tools, bundle, directory, packages, forward, files)
    ensures paths.Some? ==> Locates(paths.value, bundle.packages)
  {
    if !ManifestOk(bundle, directory, packages, forward) { return None; }
    if files.Keys != Elements(Filenames(bundle.packages)) { return None; }
    var total;
    total, paths := ValidateEntries(tools, bundle.packages, files);
    if paths.Some? && total != bundle.total { return None; }
  }

  /** Every baseline package has a file whose header names exactly that package. */
  lemma ValidBundleHoldsBaseline(tools: Tools, bundle: Bundle, directory: string, packages: seq<Identity>,
                                 forward: Option<seq<Identity>>,
                                 files: map<string, Blob>, paths: map<Identity, string>, id: Identity)
    requires ValidBundle(tools, bundle, directory, packages, forward, files) && Locates(paths, bundle.packages)
             && id in packages
    ensures id in paths && paths[id] in files
    ensures var header := tools.inspect(files[paths[id]].content); header.Some? && header.value.id == id
  {
    assert id in WithRole(bundle.packages, Baseline);
    var i :| 0 <= i < |bundle.packages| && bundle.packages[i].id == id;
    EachEntryOk(tools, bundle.packages, files, i);
  }
}
