/** How transactions are laid out as command lines, and read back from them. */
module CommandLayout {
  import opened Outcomes

  type Args = seq<string>

  /** The words that give a command line its structure. */
  datatype Words = Words(remove: string, install: string, removal: string, apply: string, check: string) {
    function Mode(apply: bool): string { if apply then this.apply else check }

    predicate IsMarker(word: string) { word == remove || word == install || word == removal }

    predicate Unambiguous() {
      remove != install && remove != removal && install != removal && !IsMarker(apply) && !IsMarker(check)
          && apply != check
    }
  }

  const SCRIPT_WORDS := Words("--remove", "--expect-install", "--expect-remove", "--apply", "--check")

  lemma ScriptWordsAreUnambiguous()
    ensures SCRIPT_WORDS.Unambiguous() && !SCRIPT_WORDS.IsMarker("-c")
  {
  }

  /** What precedes and what follows the first occurrence of a word. */
  datatype Cut = Cut(list: Args, rest: Args)

  function CutAt(s: Args, word: string): Option<Cut> {
    if s == [] then None
    else if s[0] == word then Some(Cut([], s[1..]))
    else
      var later := CutAt(s[1..], word);
      if later.None? then None else Some(Cut([s[0]] + later.value.list, later.value.rest))
  }

  /** A list that does not contain the word is cut off whole. */
  lemma {:induction false} CutReads(list: Args, word: string, after: Args)
    requires word !in list
    ensures CutAt(list + ([word] + after), word) == Some(Cut(list, after))
  {
    var s := list + ([word] + after);
    if list == [] {
      assert s == [word] + after && s[1..] == after;
    } else {
      assert s[1..] == list[1..] + ([word] + after);
      CutReads(list[1..], word, after);
      assert [s[0]] + list[1..] == list;
    }
  }

  /** Nothing is lost by a cut, and nothing before it is the word. */
  lemma {:induction false} CutRebuilds(s: Args, word: string)
    requires CutAt(s, word).Some?
    ensures var c := CutAt(s, word).value; s == c.list + ([word] + c.rest) && word !in c.list
  {
    if s[0] == word {
      assert s == [word] + s[1..];
    } else {
      CutRebuilds(s[1..], word);
      var later := CutAt(s[1..], word).value;
      var list := [s[0]] + later.list;
      assert s == [s[0]] + s[1..] == list + ([word] + later.rest);
      assert word !in list;
    }
  }

  function Count(s: Args, word: string): nat {
    if s == [] then 0 else (if s[0] == word then 1 else 0) + Count(s[1..], word)
  }

  lemma {:induction false} CountAppend(a: Args, b: Args, word: string)
    ensures Count(a + b, word) == Count(a, word) + Count(b, word)
  {
    if a == [] {
      assert a + b == b;
    } else {
      CountAppend(a[1..], b, word);
      assert (a + b)[1..] == a[1..] + b;
    }
  }

  lemma {:induction false} CountAbsent(s: Args, word: string)
    ensures Count(s, word) == 0 <==> word !in s
  {
    if s != [] {
      CountAbsent(s[1..], word);
      assert s == [s[0]] + s[1..];
    }
  }

  predicate Distinct(s: Args) { forall i, j :: 0 <= i < j < |s| ==> s[i] != s[j] }

  // ----- the local RPM transaction

  datatype RpmTransaction = RpmTransaction(apply: bool, restore: Args, remove: Args, installs: Args, removals: Args)

  function FromRemove(w: Words, tx: RpmTransaction): Args { [w.remove] + (tx.remove + FromInstalls(w, tx)) }

  function FromInstalls(w: Words, tx: RpmTransaction): Args { [w.install] + (tx.installs + FromRemovals(w, tx)) }

  function FromRemovals(w: Words, tx: RpmTransaction): Args { [w.removal] + tx.removals }

  /** The arguments after the interpreter, its options and the script. */
  function ScriptArguments(w: Words, tx: RpmTransaction): Args {
    [w.Mode(tx.apply)] + (tx.restore + FromRemove(w, tx))
  }

  function DnfLocalTransactionCommand(w: Words, script: string, tx: RpmTransaction): Args {
    ["python3", "-I", "-c", script] + ScriptArguments(w, tx)
  }

  /** The operand lists between the markers. */
  function Split(w: Words, apply: bool, operands: Args): Option<RpmTransaction> {
    var restore := CutAt(operands, w.remove);
    if restore.None? then None else
    var remove := CutAt(restore.value.rest, w.install);
    if remove.None? then None else
    var installs := CutAt(remove.value.rest, w.removal);
    if installs.None? then None else
    Some(RpmTransaction(apply, restore.value.list, remove.value.list, installs.value.list, installs.value.rest))
  }

  predicate Repeats(tx: RpmTransaction) {
    !Distinct(tx.restore) || !Distinct(tx.remove) || !Distinct(tx.installs) || !Distinct(tx.removals)
  }

  /** The script's reading of its arguments, which follow the word the interpreter puts first. */
  function ParseArguments(w: Words, argv: Args): Option<RpmTransaction> {
    if |argv| < 2 then None else
    var tx := Split(w, argv[1] == w.apply, argv[2..]);
    if tx.None? then None
    else if argv[1] != w.check && argv[1] != w.apply then None
    else if Count(argv, w.remove) != 1 || Count(argv, w.install) != 1 || Count(argv, w.removal) != 1 then None
    else if Repeats(tx.value) then None
    else tx
  }

  /** No operand is a marker word and no list repeats one. */
  predicate Representable(w: Words, tx: RpmTransaction) {
    !InOperands(tx, w.remove) && !InOperands(tx, w.install) && !InOperands(tx, w.removal) && !Repeats(tx)
  }

  /** How often a word occurs in the arguments, part by part. */
  lemma CountInArguments(w: Words, tx: RpmTransaction, zero: string, word: string)
    ensures Count([zero] + ScriptArguments(w, tx), word)
         == Count([zero], word) + Count([w.Mode(tx.apply)], word) + Count(tx.restore, word) + Count([w.remove], word)
             + Count(tx.remove, word)
            + Count([w.install], word) + Count(tx.installs, word) + Count([w.removal], word) + Count(tx.removals, word)
  {
    CountAppend([zero], ScriptArguments(w, tx), word);
    CountAppend([w.Mode(tx.apply)], tx.restore + FromRemove(w, tx), word);
    CountAppend(tx.restore, FromRemove(w, tx), word);
    CountAppend([w.remove], tx.remove + FromInstalls(w, tx), word);
    CountAppend(tx.remove, FromInstalls(w, tx), word);
    CountAppend([w.install], tx.installs + FromRemovals(w, tx), word);
    CountAppend(tx.installs, FromRemovals(w, tx), word);
    CountAppend([w.removal], tx.removals, word);
  }

  predicate InOperands(tx: RpmTransaction, word: string) {
    word in tx.restore || word in tx.remove || word in tx.installs || word in tx.removals
  }

  /** A marker is counted once exactly if it is in no operand list. */
  lemma MarkerCount(w: Words, tx: RpmTransaction, zero: string, marker: string)
    requires w.Unambiguous() && w.IsMarker(marker) && !w.IsMarker(zero)
    ensures Count([zero] + ScriptArguments(w, tx), marker) == 1 <==> !InOperands(tx, marker)
  {
    CountInArguments(w, tx, zero, marker);
    CountAbsent(tx.restore, marker);
    CountAbsent(tx.remove, marker);
    CountAbsent(tx.installs, marker);
    CountAbsent(tx.removals, marker);
  }

  /** Without marker words in the lists, the separators are where the builder put them. */
  lemma PartsAreRead(w: Words, tx: RpmTransaction)
    requires !InOperands(tx, w.remove) && !InOperands(tx, w.install) && !InOperands(tx, w.removal)
    ensures Split(w, tx.apply, tx.restore + FromRemove(w, tx)) == Some(tx)
  {
    CutReads(tx.restore, w.remove, tx.remove + FromInstalls(w, tx));
    CutReads(tx.remove, w.install, tx.installs + FromRemovals(w, tx));
    CutReads(tx.installs, w.removal, tx.removals);
  }

  /** The script reads back exactly what the command was built from, and refuses everything that
      the layout cannot represent. */
  lemma ScriptReadsBack(w: Words, tx: RpmTransaction, zero: string)
    requires w.Unambiguous() && !w.IsMarker(zero)
    ensures ParseArguments(w, [zero] + ScriptArguments(w, tx)) == if Representable(w, tx) then Some(tx) else None
  {
    MarkerCount(w, tx, zero, w.remove);
    MarkerCount(w, tx, zero, w.install);
    MarkerCount(w, tx, zero, w.removal);
    if !InOperands(tx, w.remove) && !InOperands(tx, w.install) && !InOperands(tx, w.removal) {
      PartsAreRead(w, tx);
    }
    var argv := [zero] + ScriptArguments(w, tx);
    assert argv[1] == w.Mode(tx.apply) && argv[2..] == tx.restore + FromRemove(w, tx);
  }

  lemma SplitRebuilds(w: Words, apply: bool, operands: Args)
    requires Split(w, apply, operands).Some?
    ensures var tx := Split(w, apply, operands).value; operands == tx.restore + FromRemove(w, tx)
  {
    CutRebuilds(operands, w.remove);
    var restore := CutAt(operands, w.remove).value;
    CutRebuilds(restore.rest, w.install);
    CutRebuilds(CutAt(restore.rest, w.install).value.rest, w.removal);
  }

  /** And what the script accepts is what it would have been sent: the layout loses nothing. */
  lemma AcceptedIsRebuilt(w: Words, argv: Args)
    requires w.Unambiguous() && ParseArguments(w, argv).Some?
    ensures [argv[0]] + ScriptArguments(w, ParseArguments(w, argv).value) == argv
    ensures !w.IsMarker(argv[0]) ==> Representable(w, ParseArguments(w, argv).value)
  {
    var tx := ParseArguments(w, argv).value;
    SplitRebuilds(w, tx.apply, argv[2..]);
    assert argv == [argv[0]] + ([argv[1]] + argv[2..]);
    if !w.IsMarker(argv[0]) { ScriptReadsBack(w, tx, argv[0]); }
  }

  /** The preflight extractors on the same command. */
  function ScriptRestoreSpecs(w: Words, command: Args): Args
    requires |command| >= 5
  {
    var restore := CutAt(command[5..], w.remove);
    if restore.None? then [] else restore.value.list
  }

  function ScriptRemoveSpecs(w: Words, command: Args): Args
    requires |command| >= 5
  {
    var restore := CutAt(command[5..], w.remove);
    if restore.None? then [] else
    var remove := CutAt(restore.value.rest, w.install);
    if remove.None? then [] else remove.value.list
  }

  lemma ExtractorsReadBack(w: Words, script: string, tx: RpmTransaction)
    requires w.remove !in tx.restore && w.install !in tx.remove
    ensures var command := DnfLocalTransactionCommand(w, script, tx);
            |command| >= 5 && ScriptRestoreSpecs(w, command) == tx.restore && ScriptRemoveSpecs(w, command) == tx.remove
  {
    var command := DnfLocalTransactionCommand(w, script, tx);
    assert command[5..] == tx.restore + FromRemove(w, tx);
    CutReads(tx.restore, w.remove, tx.remove + FromInstalls(w, tx));
    CutReads(tx.remove, w.install, tx.installs + FromRemovals(w, tx));
  }

  // ----- APT and Zypper

  predicate StartsWith(s: string, prefix: string) { prefix <= s }

  predicate EndsWith(s: string, suffix: string) { |suffix| <= |s| && s[|s| - |suffix|..] == suffix }

  function Select(s: Args, keep: string -> bool): Args {
    if s == [] then [] else (if keep(s[0]) then [s[0]] else []) + Select(s[1..], keep)
  }

  lemma {:induction false} SelectAppend(a: Args, b: Args, keep: string -> bool)
    ensures Select(a + b, keep) == Select(a, keep) + Select(b, keep)
  {
    if a == [] {
      assert a + b == b;
    } else {
      assert (a + b)[0] == a[0] && (a + b)[1..] == a[1..] + b;
      SelectAppend(a[1..], b, keep);
      var head := if keep(a[0]) then [a[0]] else [];
      assert head + (Select(a[1..], keep) + Select(b, keep)) == (head + Select(a[1..], keep)) + Select(b, keep);
    }
  }

  /** Selecting keeps everything exactly if everything is kept, and nothing exactly if nothing is. */
  lemma {:induction false} SelectSome(s: Args, keep: string -> bool)
    ensures Select(s, keep) == s <==> forall x :: x in s ==> keep(x)
    ensures Select(s, keep) == [] <==> forall x :: x in s ==> !keep(x)
    ensures |Select(s, keep)| <= |s| && (|Select(s, keep)| == |s| ==> Select(s, keep) == s)
  {
    if s != [] {
      SelectSome(s[1..], keep);
      assert s == [s[0]] + s[1..];
      assert forall x :: x in s <==> x == s[0] || x in s[1..];
    }
  }

  lemma SelectOneSide(a: Args, b: Args, keep: string -> bool)
    ensures (forall x :: x in b ==> !keep(x)) ==> Select(a + b, keep) == Select(a, keep)
    ensures (forall x :: x in a ==> !keep(x)) ==> Select(a + b, keep) == Select(b, keep)
  {
    SelectAppend(a, b, keep);
    SelectSome(a, keep);
    SelectSome(b, keep);
    assert Select(a, keep) + [] == Select(a, keep) && [] + Select(b, keep) == Select(b, keep);
  }

  function Map(s: Args, f: string -> string): (r: Args)
    ensures |r| == |s| && forall i :: 0 <= i < |s| ==> r[i] == f(s[i])
  {
    seq(|s|, i requires 0 <= i < |s| => f(s[i]))
  }

  function Dashed(s: string): string { s + "-" }

  function WithoutLast(s: string): string { if s == "" then s else s[..|s| - 1] }

  function WithoutFirst(s: string): string { if s == "" then s else s[1..] }

  /** Adding a dash to each operand and taking it off again changes nothing. */
  lemma DashesComeOff(s: Args)
    ensures Map(Map(s, Dashed), WithoutLast) == s
    ensures Map(Map(s, Prefixed), WithoutFirst) == s
  {
  }

  function Prefixed(s: string): string { "-" + s }

  function AptFlags(): Args {
    ["-y", "--allow-change-held-packages", "--allow-downgrades", "--no-download", "--no-install-recommends", "--purge"]
  }

  /** Local packages by path, and removals with a dash behind them. */
  function AptCommand(paths: Args, removals: Args): Args {
    ["apt-get", "install"] + (AptFlags() + (paths + Map(removals, Dashed)))
  }

  predicate IsAptRestore(operand: string) { !StartsWith(operand, "-") && !EndsWith(operand, "-") }

  predicate IsAptRemove(operand: string) { !StartsWith(operand, "-") && EndsWith(operand, "-") }

  function AptRestoreSpecs(command: Args): Args
    requires |command| >= 2
  {
    Select(command[2..], IsAptRestore)
  }

  function AptRemoveSpecs(command: Args): Args
    requires |command| >= 2
  {
    Map(Select(command[2..], IsAptRemove), WithoutLast)
  }

  lemma FlagsAreNoOperands()
    ensures Select(AptFlags(), IsAptRestore) == [] == Select(AptFlags(), IsAptRemove)
  {
  }

  lemma DashedEnds(s: string)
    ensures EndsWith(Dashed(s), "-") && !IsAptRestore(Dashed(s))
            && (IsAptRemove(Dashed(s)) <==> s != "" && !StartsWith(s, "-"))
  {
  }

  /** The selections from an APT operand list, part by part. */
  lemma AptSelections(paths: Args, removals: Args, keep: string -> bool)
    requires Select(AptFlags(), keep) == []
    ensures Select(AptCommand(paths, removals)[2..], keep) == Select(paths, keep) + Select(Map(removals, Dashed), keep)
  {
    assert AptCommand(paths, removals)[2..] == AptFlags() + (paths + Map(removals, Dashed));
    SelectAppend(AptFlags(), paths + Map(removals, Dashed), keep);
    SelectAppend(paths, Map(removals, Dashed), keep);
    assert [] + (Select(paths, keep) + Select(Map(removals, Dashed), keep)) == Select(paths, keep)
        + Select(Map(removals, Dashed), keep);
  }

  predicate AptPlain(paths: Args, removals: Args) {
    && (forall p :: p in paths ==> IsAptRestore(p))
    && forall r :: r in removals ==> r != "" && !StartsWith(r, "-")
  }

  lemma AptRestoresReadBack(paths: Args, removals: Args)
    ensures AptRestoreSpecs(AptCommand(paths, removals)) == paths <==> forall p :: p in paths ==> IsAptRestore(p)
  {
    FlagsAreNoOperands();
    AptSelections(paths, removals, IsAptRestore);
    DashedOperands(removals);
    SelectSome(Map(removals, Dashed), IsAptRestore);
    assert Select(paths, IsAptRestore) + [] == Select(paths, IsAptRestore);
    SelectSome(paths, IsAptRestore);
  }

  lemma AptRemovesReadBack(paths: Args, removals: Args)
    requires forall p :: p in paths ==> IsAptRestore(p)
    ensures AptRemoveSpecs(AptCommand(paths, removals)) == removals <==>
              forall r :: r in removals ==> r != "" && !StartsWith(r, "-")
  {
    var dashed := Map(removals, Dashed);
    FlagsAreNoOperands();
    AptSelections(paths, removals, IsAptRemove);
    SelectSome(paths, IsAptRemove);
    assert [] + Select(dashed, IsAptRemove) == Select(dashed, IsAptRemove);
    SelectSome(dashed, IsAptRemove);
    DashedOperands(removals);
    DashesComeOff(removals);
  }

  /** Both lists are read back from a rollback command exactly if no path looks like a removal or an
      option, and no removal like an option. */
  lemma AptReadsBack(paths: Args, removals: Args)
    ensures AptRestoreSpecs(AptCommand(paths, removals)) == paths
            && AptRemoveSpecs(AptCommand(paths, removals)) == removals
            <==> AptPlain(paths, removals)
  {
    AptRestoresReadBack(paths, removals);
    if forall p :: p in paths ==> IsAptRestore(p) { AptRemovesReadBack(paths, removals); }
  }

  lemma DashedOperands(removals: Args)
    ensures forall x :: x in Map(removals, Dashed) ==> !IsAptRestore(x)
    ensures (forall x :: x in Map(removals, Dashed) ==> IsAptRemove(x)) <==>
              forall r :: r in removals ==> r != "" && !StartsWith(r, "-")
  {
    var dashed := Map(removals, Dashed);
    forall i | 0 <= i < |dashed|
      ensures !IsAptRestore(dashed[i])
              && (IsAptRemove(dashed[i]) <==> removals[i] != "" && !StartsWith(removals[i], "-"))
    {
      DashedEnds(removals[i]);
    }
    assert forall i :: 0 <= i < |dashed| ==> dashed[i] in dashed;
    assert forall i :: 0 <= i < |removals| ==> removals[i] in removals;
  }

  function ZypperFlags(): Args {
    ["zypper", "--non-interactive", "--disable-repositories", "--no-refresh", "install", "--oldpackage",
     "--no-recommends", "--no-force-resolution"]
  }

  /** Local packages by path, and removals with a dash before them. */
  function ZypperCommand(paths: Args, removals: Args): Args {
    ZypperFlags() + (["--"] + (paths + Map(removals, Prefixed)))
  }

  predicate IsDashed(operand: string) { StartsWith(operand, "-") }

  predicate NotDashed(operand: string) { !StartsWith(operand, "-") }

  function ZypperRestoreSpecs(command: Args): Args {
    var cut := CutAt(command, "--");
    if cut.None? then [] else Select(cut.value.rest, NotDashed)
  }

  function ZypperRemoveSpecs(command: Args): Args {
    var cut := CutAt(command, "--");
    if cut.None? then [] else Map(Select(cut.value.rest, IsDashed), WithoutFirst)
  }

  /** Both lists are read back exactly if no path looks like an option; removals may be anything. */
  lemma ZypperReadsBack(paths: Args, removals: Args)
    ensures ZypperRestoreSpecs(ZypperCommand(paths, removals)) == paths <==> forall p :: p in paths ==> NotDashed(p)
    ensures (forall p :: p in paths ==> NotDashed(p)) ==> ZypperRemoveSpecs(ZypperCommand(paths, removals)) == removals
  {
    var prefixed := Map(removals, Prefixed);
    ZypperCut(paths + prefixed);
    assert forall i :: 0 <= i < |prefixed| ==> IsDashed(prefixed[i]);
    SelectOneSide(paths, prefixed, NotDashed);
    SelectOneSide(paths, prefixed, IsDashed);
    SelectSome(paths, NotDashed);
    SelectSome(prefixed, IsDashed);
    DashesComeOff(removals);
  }

  lemma ZypperCut(operands: Args)
    ensures CutAt(ZypperFlags() + (["--"] + operands), "--") == Some(Cut(ZypperFlags(), operands))
  {
    assert "--" !in ZypperFlags();
    CutReads(ZypperFlags(), "--", operands);
  }

  // ----- the forward APT transaction on local packages

  predicate IsDeb(operand: string) { EndsWith(operand, ".deb") }

  predicate IsForwardRemoval(operand: string) { EndsWith(operand, "-") && !EndsWith(operand, ".deb-") }

  datatype Forward = Forward(paths: Args, removals: Args)

  /** The preflight's reading of a forward command, which must name exactly the staged paths. */
  function ForwardOperands(command: Args, expected: Args): Option<Forward> {
    var fixed := ["apt-get", "install"] + AptFlags();
    var operands := if fixed <= command then command[|fixed|..] else [];
    var paths := Select(operands, IsDeb);
    var removals := Map(Select(operands, IsForwardRemoval), WithoutLast);
    if operands == [] || |paths| + |removals| != |operands| || paths != expected || !Distinct(removals) then None
    else Some(Forward(paths, removals))
  }

  lemma DebOperands(paths: Args, removals: Args)
    requires forall p :: p in paths ==> IsDeb(p)
    ensures forall p :: p in paths ==> !IsForwardRemoval(p)
    ensures forall x :: x in Map(removals, Dashed) ==> !IsDeb(x)
    ensures (forall x :: x in Map(removals, Dashed) ==> IsForwardRemoval(x)) <==>
              forall r :: r in removals ==> !IsDeb(r)
  {
    forall p | p in paths
      ensures !EndsWith(p, "-")
    {
      assert p[|p| - 4..][3] == 'b';
    }
    var dashed := Map(removals, Dashed);
    forall i | 0 <= i < |dashed|
      ensures !IsDeb(dashed[i]) && (IsForwardRemoval(dashed[i]) <==> !IsDeb(removals[i]))
    {
      DashedDeb(removals[i]);
    }
    assert forall i :: 0 <= i < |dashed| ==> dashed[i] in dashed;
    assert forall i :: 0 <= i < |removals| ==> removals[i] in removals;
  }

  lemma DashedDeb(s: string)
    ensures !IsDeb(Dashed(s)) && (IsForwardRemoval(Dashed(s)) <==> !IsDeb(s))
  {
    var d := Dashed(s);
    assert d[|s|..] == "-";
    if |s| >= 4 {
      assert d[|d| - 5..] == s[|s| - 4..] + "-";
      assert d[|d| - 4..][3] == '-';
      assert (s[|s| - 4..] + "-")[..4] == s[|s| - 4..] && ".deb-"[..4] == ".deb";
    }
  }

  /** The staged payload paths and the removals are recovered exactly if no removal ends like a payload;
      otherwise the command is refused. */
  lemma ForwardReadsBack(paths: Args, removals: Args)
    requires paths != [] && Distinct(removals) && forall p :: p in paths ==> IsDeb(p)
    ensures ForwardOperands(AptCommand(paths, removals), paths)
         == if forall r :: r in removals ==> !IsDeb(r) then Some(Forward(paths, removals)) else None
  {
    var operands := paths + Map(removals, Dashed);
    ForwardTail(operands);
    ForwardSelections(paths, removals);
  }

  lemma ForwardTail(operands: Args)
    ensures var fixed := ["apt-get", "install"] + AptFlags();
            ["apt-get", "install"] + (AptFlags() + operands) == fixed + operands && fixed <= fixed + operands
                && (fixed + operands)[|fixed|..] == operands
  {
  }

  lemma ForwardSelections(paths: Args, removals: Args)
    requires forall p :: p in paths ==> IsDeb(p)
    ensures var operands := paths + Map(removals, Dashed);
            var kept := Map(Select(operands, IsForwardRemoval), WithoutLast);
            && Select(operands, IsDeb) == paths
            && (if forall r :: r in removals ==> !IsDeb(r) then kept == removals else |paths| + |kept| < |operands|)
  {
    var dashed := Map(removals, Dashed);
    DebOperands(paths, removals);
    SelectOneSide(paths, dashed, IsDeb);
    SelectOneSide(paths, dashed, IsForwardRemoval);
    SelectSome(paths, IsDeb);
    SelectSome(dashed, IsForwardRemoval);
    DashesComeOff(removals);
  }
}
