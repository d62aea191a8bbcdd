/** The evidence gate: every declared gate must have run against the code of the commit under test. */
module Evidence {
  import opened Text

  // ---------------------------------------------------------------- the commit chain

  type Path = string
  type Blob = nat

  /** A commit of the first-parent chain: its tree, and what git answers when asked which paths it touches
      (nothing when git fails). */
  datatype Commit = Commit(sha: string, tree: map<Path, Blob>, touched: Option<seq<Path>>)

  predicate SameAt(a: map<Path, Blob>, b: map<Path, Blob>, p: Path) {
    (p in a <==> p in b) && (p in a && p in b ==> a[p] == b[p])
  }

  /** git reports every path in which a commit differs from its first parent. */
  ghost predicate TouchedIsComplete(chain: seq<Commit>) {
    forall i :: 0 <= i < |chain| - 1 ==> TouchesAll(chain[i], chain[i + 1])
  }

  ghost predicate TouchesAll(c: Commit, parent: Commit) {
    c.touched.Some? ==> forall p :: !SameAt(c.tree, parent.tree, p) ==> p in c.touched.value
  }

  predicate HexChar(c: char) {
    '0' <= c <= '9' || 'a' <= c <= 'f'
  }

  predicate Hex40(s: string) {
    |s| == 40 && forall c | c in s :: HexChar(c)
  }

  /** Forty hexadecimal digits; the expression's $ also accepts a final line feed. */
  predicate IsSha(s: string) {
    Hex40(s) || (|s| == 41 && s[40] == '\n' && Hex40(s[..40]))
  }

  predicate SlashChar(c: char) {
    c == '/' || c == '\\'
  }

  function EvidencePrefix(dir: string): string {
    RStrip(dir, SlashChar) + "/"
  }

  /** The commit touches something, and nothing outside the evidence directory. */
  predicate EvidenceOnly(c: Commit, prefix: string) {
    c.touched.Some? && c.touched.value != [] && forall f | f in c.touched.value :: StartsWith(f, prefix)
  }

  /** The walk can step over commit i: it is evidence-only and its parent's id can be read. */
  predicate CanStep(chain: seq<Commit>, i: nat, prefix: string) {
    i < |chain| && EvidenceOnly(chain[i], prefix) && i + 1 < |chain| && IsSha(chain[i + 1].sha)
  }

  const WALK_BOUND: nat := 5

  /** How many commits at the tip can be stepped over. */
  function Tail(chain: seq<Commit>, i: nat, prefix: string): (n: nat)
    requires i <= |chain|
    decreases |chain| - i
    ensures i + n <= |chain| && (chain != [] && i < |chain| ==> i + n < |chain|)
    ensures forall k :: i <= k < i + n ==> CanStep(chain, k, prefix)
    ensures !CanStep(chain, i + n, prefix)
  {
    if CanStep(chain, i, prefix) then 1 + Tail(chain, i + 1, prefix) else 0
  }

  /** Where the bounded walk stops. */
  function Resolved(chain: seq<Commit>, prefix: string): (k: nat)
    requires chain != []
    ensures k < |chain|
  {
    var n := Tail(chain, 0, prefix);
    if n < WALK_BOUND then n else WALK_BOUND
  }

  /** The walk past the commits that only touch evidence. */
  method LastNonEvidenceCommit(chain: seq<Commit>, dir: string) returns (k: nat)
    requires chain != []
    ensures k == Resolved(chain, EvidencePrefix(dir))
  {
    var prefix := EvidencePrefix(dir);
    k := 0;
    for step := 0 to WALK_BOUND
      invariant k == step < |chain|
      invariant Tail(chain, 0, prefix) == k + Tail(chain, k, prefix)
    {
      var files := chain[k].touched;
      if files == None || files.value == [] || exists f | f in files.value :: !StartsWith(f, prefix) {
        return;
      }
      if k + 1 == |chain| {
        return;
      }
      if !IsSha(chain[k + 1].sha) {
        return;
      }
      k := k + 1;
    }
  }

  /** The walk reaches the last commit that is not evidence-only exactly when at most five commits follow it;
      it never looks further. */
  lemma WalkReachesCodeIff(chain: seq<Commit>, prefix: string)
    requires chain != []
    ensures var k := Resolved(chain, prefix);
            && k <= 5 && (forall i :: 0 <= i < k ==> EvidenceOnly(chain[i], prefix))
            && (!CanStep(chain, k, prefix) <==> Tail(chain, 0, prefix) <= 5)
  {
    var n := Tail(chain, 0, prefix);
    forall i | 0 <= i < Resolved(chain, prefix) ensures EvidenceOnly(chain[i], prefix) {
      assert CanStep(chain, i, prefix);
    }
  }

  ghost predicate AgreeOutside(a: map<Path, Blob>, b: map<Path, Blob>, prefix: string) {
    forall p :: !StartsWith(p, prefix) ==> SameAt(a, b, p)
  }

  lemma {:induction false} SteppedTreesAgree(chain: seq<Commit>, prefix: string, k: nat)
    requires k < |chain| && TouchedIsComplete(chain)
    requires forall i :: 0 <= i < k ==> EvidenceOnly(chain[i], prefix)
    ensures AgreeOutside(chain[0].tree, chain[k].tree, prefix)
  {
    if k > 0 {
      SteppedTreesAgree(chain, prefix, k - 1);
      assert TouchesAll(chain[k - 1], chain[k]);
      forall p | !StartsWith(p, prefix) ensures SameAt(chain[0].tree, chain[k].tree, p) {
        assert SameAt(chain[0].tree, chain[k - 1].tree, p);
      }
    }
  }

  // ---------------------------------------------------------------- one artifact

  datatype Json =
    | JNull | JBool(b: bool) | JInt(n: int) | JFloat(r: real) | JText(s: string)
    | JArray(items: seq<Json>) | JObject(fields: map<string, Json>)

  datatype Problem = NotAnObject | MissingField(name: string) | WrongSchema | WrongGate | NotASha | Stale | NotPassed
    | NoAcIds | BadAcId(ac: Json) | DuplicateAcIds

  const REQUIRED_FIELDS: seq<string> := ["schema_version", "gate", "head_sha", "timestamp", "verdict", "ac_ids"]

  predicate AlphaNum(c: char) {
    'a' <= c <= 'z' || 'A' <= c <= 'Z' || '0' <= c <= '9'
  }

  /** Runs of letters and digits with single dots or dashes between them. */
  predicate AcTail(t: string) {
    && t != "" && AlphaNum(t[0]) && AlphaNum(t[|t| - 1])
    && (forall i | 0 <= i < |t| :: AlphaNum(t[i]) || t[i] == '.' || t[i] == '-')
    && forall i | 0 <= i < |t| - 1 :: AlphaNum(t[i]) || AlphaNum(t[i + 1])
  }

  predicate IsAcId(s: string) {
    StartsWith(s, "AC-") && (AcTail(s[3..]) || (s[|s| - 1] == '\n' && AcTail(s[3..|s| - 1])))
  }

  predicate ValidAc(ac: Json) {
    ac.JText? && IsAcId(ac.s)
  }

  function AcProblems(items: seq<Json>): seq<Problem> {
    if items == [] then []
    else
      AcProblems(items[..|items| - 1]) + if ValidAc(items[|items| - 1]) then [] else [BadAcId(items[|items| - 1])]
  }

  predicate DistinctItems(items: seq<Json>) {
    forall i, j | 0 <= i < j < |items| :: items[i] != items[j]
  }

  predicate IsTwo(v: Json) {
    v == JInt(2) || v == JFloat(2.0)
  }

  /** What the artifact must say: it ran this gate, on this commit, passed, and names distinct claims. */
  ghost predicate Discharges(payload: Json, gate: string, sha: string, show: Json -> string) {
    && payload.JObject? && (forall f :: f in REQUIRED_FIELDS ==> f in payload.fields)
    && IsTwo(payload.fields["schema_version"]) && payload.fields["gate"] == JText(gate)
    && HeadSha(payload, show) == sha && IsSha(sha)
    && payload.fields["verdict"] == JText("PASS")
    && payload.fields["ac_ids"].JArray? && payload.fields["ac_ids"].items != []
    && (forall ac :: ac in payload.fields["ac_ids"].items ==> ValidAc(ac))
    && DistinctItems(payload.fields["ac_ids"].items)
  }

  /** The recorded commit as text; show is how other JSON values print. */
  function HeadSha(payload: Json, show: Json -> string): string
    requires payload.JObject? && "head_sha" in payload.fields
  {
    var v := payload.fields["head_sha"];
    if v.JText? then v.s else show(v)
  }

  lemma {:induction false} AcProblemsIff(items: seq<Json>)
    ensures AcProblems(items) == [] <==> forall ac :: ac in items ==> ValidAc(ac)
  {
    if items != [] {
      AcProblemsIff(items[..|items| - 1]);
      assert items == items[..|items| - 1] + [items[|items| - 1]];
    }
  }

  method ValidateAcIds(acIds: Json) returns (problems: seq<Problem>)
    ensures problems == [] <==>
            && acIds.JArray? && acIds.items != [] && (forall ac :: ac in acIds.items ==> ValidAc(ac))
            && DistinctItems(acIds.items)
  {
    if !acIds.JArray? || acIds.items == [] {
      return [NoAcIds];
    }
    problems := [];
    for i := 0 to |acIds.items|
      invariant problems == AcProblems(acIds.items[..i])
    {
      assert acIds.items[..i + 1][..i] == acIds.items[..i];
      if !ValidAc(acIds.items[i]) {
        problems := problems + [BadAcId(acIds.items[i])];
      }
    }
    assert acIds.items[..|acIds.items|] == acIds.items;
    AcProblemsIff(acIds.items);
    if !DistinctItems(acIds.items) {
      problems := problems + [DuplicateAcIds];
    }
  }

  method MissingFields(fields: map<string, Json>) returns (problems: seq<Problem>)
    ensures problems == [] <==> forall f :: f in REQUIRED_FIELDS ==> f in fields
  {
    problems := [];
    for i := 0 to |REQUIRED_FIELDS|
      invariant problems == [] <==> forall j :: 0 <= j < i ==> REQUIRED_FIELDS[j] in fields
    {
      if REQUIRED_FIELDS[i] !in fields {
        problems := problems + [MissingField(REQUIRED_FIELDS[i])];
      }
    }
  }

  lemma RequiredPresent(fields: map<string, Json>)
    requires forall f :: f in REQUIRED_FIELDS ==> f in fields
    ensures "schema_version" in fields && "gate" in fields && "head_sha" in fields && "verdict" in fields
            && "ac_ids" in fields
  {
    assert REQUIRED_FIELDS[0] in fields && REQUIRED_FIELDS[1] in fields && REQUIRED_FIELDS[2] in fields;
    assert REQUIRED_FIELDS[4] in fields && REQUIRED_FIELDS[5] in fields;
  }

  /** No problem is found exactly when the artifact discharges the gate. */
  method ValidateEvidence(payload: Json, gate: string, sha: string, show: Json -> string)
    returns (problems: seq<Problem>)
    requires IsSha(sha)
    ensures problems == [] <==> Discharges(payload, gate, sha, show)
  {
    if !payload.JObject? {
      return [NotAnObject];
    }
    problems := MissingFields(payload.fields);
    if problems != [] {
      return;
    }
    RequiredPresent(payload.fields);
    if !IsTwo(payload.fields["schema_version"]) {
      problems := problems + [WrongSchema];
    }
    if payload.fields["gate"] != JText(gate) {
      problems := problems + [WrongGate];
    }
    var head := HeadSha(payload, show);
    if !IsSha(head) {
      problems := problems + [NotASha];
    } else if head != sha {
      problems := problems + [Stale];
    }
    if payload.fields["verdict"] != JText("PASS") {
      problems := problems + [NotPassed];
    }
    var ac := ValidateAcIds(payload.fields["ac_ids"]);
    problems := problems + ac;
  }

  // ---------------------------------------------------------------- the verifier

  datatype Manifest = NoManifest | Unreadable | Malformed | Gates(required: seq<string>)

  datatype Artifact = Missing | Broken | Loaded(payload: Json)

  /** A run: the chain from the commit under test, the manifest, the artifacts, and the paths the pull
      request changes (nothing without a base ref or when git fails). */
  datatype Run = Run(chain: seq<Commit>, dir: string, manifest: Manifest, artifacts: string -> Artifact,
                     changed: Option<set<Path>>, show: Json -> string)

  /** The gate is this pull request's business: nobody knows what the pull request changes, or it changes the manifest
      or the gate's artifact. */
  ghost predicate MustVerify(r: Run, gate: string) {
    var dir := RStrip(r.dir, SlashChar);
    r.changed.None? || dir + "/manifest.json" in r.changed.value || dir + "/" + gate + ".json" in r.changed.value
  }

  ghost predicate Verified(r: Run, gate: string, sha: string) {
    r.artifacts(gate).Loaded? && Discharges(r.artifacts(gate).payload, gate, sha, r.show)
  }

  ghost predicate GatesPass(r: Run, gates: seq<string>, sha: string) {
    forall g :: g in gates && MustVerify(r, g) ==> Verified(r, g, sha)
  }

  lemma GateAdded(r: Run, gates: seq<string>, gate: string, sha: string)
    ensures GatesPass(r, gates + [gate], sha)
            <==> GatesPass(r, gates, sha) && (MustVerify(r, gate) ==> Verified(r, gate, sha))
  {
    hide MustVerify, Verified;
    assert gate in gates + [gate] && forall g :: g in gates ==> g in gates + [gate];
  }

  ghost predicate Passes(r: Run) {
    || r.manifest == NoManifest
    || (r.manifest.Gates? && r.manifest.required == [])
    || (r.manifest.Gates? && r.chain != [] && IsSha(r.chain[0].sha)
        && GatesPass(r, r.manifest.required, r.chain[Resolved(r.chain, EvidencePrefix(r.dir))].sha))
  }

  method Verify(r: Run) returns (code: int)
    ensures code == 0 <==> Passes(r)
    ensures code == 0 || code == 1
  {
    if r.manifest == NoManifest {
      return 0;
    }
    if !r.manifest.Gates? {
      return 1;
    }
    var required := r.manifest.required;
    if required == [] {
      return 0;
    }
    if r.chain == [] || !IsSha(r.chain[0].sha) {
      return 1;
    }
    var k := LastNonEvidenceCommit(r.chain, r.dir);
    var sha := r.chain[k].sha;
    ResolvedSha(r.chain, EvidencePrefix(r.dir));
    var dir := RStrip(r.dir, SlashChar);
    var manifestTouched := r.changed.Some? && dir + "/manifest.json" in r.changed.value;
    var failures, skipped := 0, 0;
    for i := 0 to |required|
      invariant failures >= 0 && (failures == 0 <==> GatesPass(r, required[..i], sha))
    {
      var gate := required[i];
      assert required[..i + 1] == required[..i] + [gate];
      GateAdded(r, required[..i], gate, sha);
      if r.changed.Some? && !manifestTouched && dir + "/" + gate + ".json" !in r.changed.value {
        skipped := skipped + 1;
      } else {
        match r.artifacts(gate) {
          case Loaded(payload) =>
            var problems := ValidateEvidence(payload, gate, sha, r.show);
            if problems != [] {
              failures := failures + 1;
            }
          case _ =>
            failures := failures + 1;
        }
      }
    }
    assert required[..|required|] == required;
    code := if failures > 0 then 1 else 0;
  }

  lemma ResolvedSha(chain: seq<Commit>, prefix: string)
    requires chain != [] && IsSha(chain[0].sha)
    ensures IsSha(chain[Resolved(chain, prefix)].sha)
  {
    var k := Resolved(chain, prefix);
    if k > 0 {
      assert CanStep(chain, k - 1, prefix);
    }
  }

  /** What exit 0 means: every gate that the pull request could have changed has an artifact that passed on a commit, at
      most five commits back, whose tree is the tip's tree everywhere outside the evidence directory. */
  lemma ExitZeroIsSound(r: Run, gate: string)
    requires Passes(r) && TouchedIsComplete(r.chain)
    requires r.manifest.Gates? && gate in r.manifest.required && MustVerify(r, gate)
    ensures exists k :: 0 <= k < |r.chain| && k <= 5 && Verified(r, gate, r.chain[k].sha)
                        && AgreeOutside(r.chain[0].tree, r.chain[k].tree, EvidencePrefix(r.dir))
  {
    var prefix := EvidencePrefix(r.dir);
    var k := Resolved(r.chain, prefix);
    WalkReachesCodeIff(r.chain, prefix);
    SteppedTreesAgree(r.chain, prefix, k);
    assert Verified(r, gate, r.chain[k].sha);
  }

  /** Evidence taken before a commit that touches anything else is stale: whatever the artifact says, the
      gate is not verified, and the run fails if the gate has to be. */
  lemma StaleAfterCodeChange(r: Run, gate: string, sha: string, i: nat)
    requires i < |r.chain| && !EvidenceOnly(r.chain[i], EvidencePrefix(r.dir))
    requires (forall j :: 0 <= j <= i ==> r.chain[j].sha != sha) && Verified(r, gate, sha)
    ensures !Verified(r, gate, r.chain[Resolved(r.chain, EvidencePrefix(r.dir))].sha)
    ensures r.manifest.Gates? && gate in r.manifest.required && MustVerify(r, gate) ==> !Passes(r)
  {
    var prefix := EvidencePrefix(r.dir);
    WalkReachesCodeIff(r.chain, prefix);
    assert Resolved(r.chain, prefix) <= i;
  }
}
