/** What exit 0 of the evidence verifier means, written out over the run: paths, commits and artifact fields. */
module EvidenceVerdict {
  import opened Text
  import opened Evidence

  // ---------------------------------------------------------------- texts

  /** d is the directory without the slashes and backslashes at its end. */
  ghost predicate Trimmed(dir: string, d: string) {
    && d <= dir && (forall i :: |d| <= i < |dir| ==> dir[i] == '/' || dir[i] == '\\')
    && (d != "" ==> d[|d| - 1] != '/' && d[|d| - 1] != '\\')
  }

  ghost predicate ShaText(s: string) {
    && (|s| == 40 || (|s| == 41 && s[40] == '\n'))
    && forall i :: 0 <= i < 40 ==> s[i] in "0123456789abcdef"
  }

  ghost predicate LetterOrDigit(c: char) {
    'A' <= c <= 'Z' || 'a' <= c <= 'z' || '0' <= c <= '9'
  }

  ghost predicate Word(t: string) {
    t != "" && forall i :: 0 <= i < |t| ==> LetterOrDigit(t[i])
  }

  /** Words with one dot or dash between any two. */
  ghost predicate Words(t: string) {
    Word(t) || exists n :: 0 < n < |t| && Word(t[..n]) && (t[n] == '.' || t[n] == '-') && Words(t[n + 1..])
  }

  ghost predicate AcText(s: string) {
    exists t :: Words(t) && (s == "AC-" + t || s == "AC-" + t + "\n")
  }

  lemma TrimmedIs(dir: string, d: string)
    ensures Trimmed(dir, d) <==> d == RStrip(dir, SlashChar)
  {
    TrailingBlanksBlank(dir, SlashChar);
    var k := |dir| - TrailingBlanks(dir, SlashChar);
    hide TrailingBlanks;
    forall i | k <= i < |dir| ensures SlashChar(dir[i]) {
      assert dir[k..][i - k] == dir[i];
    }
    if Trimmed(dir, d) {
      assert d == dir[..|d|] && (k > 0 ==> !SlashChar(dir[k - 1]));
    }
  }

  lemma HexDigit(c: char)
    ensures HexChar(c) <==> c in "0123456789abcdef"
  {
    if HexChar(c) {
      var digits := "0123456789abcdef";
      var k := if '0' <= c <= '9' then c as int - '0' as int else 10 + (c as int - 'a' as int);
      assert digits[k] == c;
    }
  }

  lemma ShaTextIs(s: string)
    ensures IsSha(s) <==> ShaText(s)
  {
    forall i | 0 <= i < |s| ensures HexChar(s[i]) <==> s[i] in "0123456789abcdef" {
      HexDigit(s[i]);
    }
    hide HexChar;
    if |s| == 40 {
      assert forall i :: 0 <= i < 40 ==> s[i] in s;
    } else if |s| == 41 {
      assert forall i :: 0 <= i < 40 ==> s[..40][i] == s[i] && s[i] in s[..40];
    }
  }

  lemma WordIs(t: string)
    ensures Word(t) <==> t != "" && forall i :: 0 <= i < |t| ==> AlphaNum(t[i])
  {
  }

  /** The length of the word at the start. */
  ghost function FirstWord(t: string): (n: nat)
    ensures n <= |t| && (forall i :: 0 <= i < n ==> AlphaNum(t[i])) && (n < |t| ==> !AlphaNum(t[n]))
  {
    if t == "" || !AlphaNum(t[0]) then 0 else 1 + FirstWord(t[1..])
  }

  lemma {:induction false} WordsOfTail(t: string)
    requires AcTail(t)
    ensures Words(t)
    decreases |t|
  {
    hide AlphaNum, Word, FirstWord;
    var n := FirstWord(t);
    if n == |t| {
      WordIs(t);
    } else {
      assert AlphaNum(t[n]) || AlphaNum(t[n + 1]);
      WordIs(t[..n]);
      TailOfTail(t, n);
      WordsOfTail(t[n + 1..]);
    }
  }

  lemma TailOfTail(t: string, n: nat)
    requires AcTail(t) && n + 1 < |t| && AlphaNum(t[n + 1])
    ensures AcTail(t[n + 1..])
  {
    hide AlphaNum;
    var r := t[n + 1..];
    assert r[0] == t[n + 1] && r[|r| - 1] == t[|t| - 1];
    forall i | 0 <= i < |r| ensures AlphaNum(r[i]) || r[i] == '.' || r[i] == '-' {
      assert r[i] == t[n + 1 + i];
    }
    forall i | 0 <= i < |r| - 1 ensures AlphaNum(r[i]) || AlphaNum(r[i + 1]) {
      assert r[i] == t[n + 1 + i] && r[i + 1] == t[n + 1 + (i + 1)];
    }
  }

  lemma TailFromTail(t: string, n: nat)
    requires 0 < n < |t| && (forall i :: 0 <= i < n ==> AlphaNum(t[i])) && (t[n] == '.' || t[n] == '-')
    requires AcTail(t[n + 1..])
    ensures AcTail(t)
  {
    hide AlphaNum;
    var r := t[n + 1..];
    assert r[0] == t[n + 1] && r[|r| - 1] == t[|t| - 1];
    forall i | 0 <= i < |t| ensures AlphaNum(t[i]) || t[i] == '.' || t[i] == '-' {
      if i > n {
        assert t[i] == r[i - (n + 1)];
      }
    }
    forall i | 0 <= i < |t| - 1 ensures AlphaNum(t[i]) || AlphaNum(t[i + 1]) {
      if i > n {
        assert t[i] == r[i - (n + 1)] && t[i + 1] == r[i - (n + 1) + 1];
      }
    }
  }

  lemma {:induction false} TailOfWords(t: string)
    requires Words(t)
    ensures AcTail(t)
    decreases |t|
  {
    hide AlphaNum, Word;
    if Word(t) {
      WordIs(t);
    } else {
      var n :| 0 < n < |t| && Word(t[..n]) && (t[n] == '.' || t[n] == '-') && Words(t[n + 1..]);
      WordIs(t[..n]);
      assert forall i :: 0 <= i < n ==> t[..n][i] == t[i];
      TailOfWords(t[n + 1..]);
      TailFromTail(t, n);
    }
  }

  lemma AcTextIs(s: string)
    ensures IsAcId(s) <==> AcText(s)
  {
    hide AcTail, Words;
    if IsAcId(s) {
      assert s == "AC-" + s[3..];
      if AcTail(s[3..]) {
        WordsOfTail(s[3..]);
      } else {
        WordsOfTail(s[3..|s| - 1]);
        assert s == "AC-" + s[3..|s| - 1] + "\n";
      }
    }
    if t :| Words(t) && (s == "AC-" + t || s == "AC-" + t + "\n") {
      TailOfWords(t);
      assert s[3..] == t || s[3..|s| - 1] == t;
    }
  }

  // ---------------------------------------------------------------- the commit the gates must have run against

  /** The walk goes on from commit i: git lists its paths, there is at least one, all lie under the directory, and it
      has a parent whose id can be read. */
  ghost predicate GoesOn(chain: seq<Commit>, prefix: string, i: nat) {
    && i + 1 < |chain| && ShaText(chain[i + 1].sha)
    && chain[i].touched.Some? && chain[i].touched.value != []
    && forall j :: 0 <= j < |chain[i].touched.value| ==> prefix <= chain[i].touched.value[j]
  }

  /** The walk stops at commit k: it goes on from every commit before it, and not from this one unless it is the
      fifth. */
  ghost predicate StopsAt(chain: seq<Commit>, prefix: string, k: nat) {
    k < |chain| && k <= 5 && (forall i :: 0 <= i < k ==> GoesOn(chain, prefix, i))
        && (k < 5 ==> !GoesOn(chain, prefix, k))
  }

  lemma GoesOnIs(chain: seq<Commit>, prefix: string, i: nat)
    ensures CanStep(chain, i, prefix) <==> GoesOn(chain, prefix, i)
  {
    if i + 1 < |chain| {
      ShaTextIs(chain[i + 1].sha);
      hide IsSha, ShaText;
      if chain[i].touched.Some? {
        var files := chain[i].touched.value;
        assert forall j :: 0 <= j < |files| ==> (StartsWith(files[j], prefix) <==> prefix <= files[j]);
        assert forall j :: 0 <= j < |files| ==> files[j] in files;
      }
    }
  }

  /** The bounded walk stops where the commits say. */
  lemma ResolvedIs(chain: seq<Commit>, prefix: string, k: nat)
    requires chain != []
    ensures StopsAt(chain, prefix, k) <==> k == Resolved(chain, prefix)
  {
    hide CanStep, GoesOn, Tail;
    var n, m := Tail(chain, 0, prefix), Resolved(chain, prefix);
    TailMeans(chain, prefix);
    forall i: nat ensures CanStep(chain, i, prefix) <==> GoesOn(chain, prefix, i) {
      GoesOnIs(chain, prefix, i);
    }
    if StopsAt(chain, prefix, k) {
      assert k < m ==> CanStep(chain, k, prefix);
      assert k > m ==> GoesOn(chain, prefix, m);
    }
  }

  lemma TailMeans(chain: seq<Commit>, prefix: string)
    requires chain != []
    ensures var n := Tail(chain, 0, prefix);
            n < |chain| && (forall i :: 0 <= i < n ==> CanStep(chain, i, prefix)) && !CanStep(chain, n, prefix)
  {
    hide CanStep;
  }

  // ---------------------------------------------------------------- the artifact

  /** The artifact has every field, and they say: version 2, this gate, this commit, passed, and at least one claim,
      every one well formed and none twice. */
  ghost predicate Proves(payload: Json, gate: string, sha: string, show: Json -> string) {
    && payload.JObject?
    && {"schema_version", "gate", "head_sha", "timestamp", "verdict", "ac_ids"} <= payload.fields.Keys
    && (payload.fields["schema_version"] == JInt(2) || payload.fields["schema_version"] == JFloat(2.0))
    && payload.fields["gate"] == JText(gate) && payload.fields["verdict"] == JText("PASS")
    && (payload.fields["head_sha"] == JText(sha)
        || (!payload.fields["head_sha"].JText? && show(payload.fields["head_sha"]) == sha))
    && payload.fields["ac_ids"].JArray? && payload.fields["ac_ids"].items != []
    && ClaimsOk(payload.fields["ac_ids"].items)
  }

  ghost predicate ClaimsOk(claims: seq<Json>) {
    && (forall i :: 0 <= i < |claims| ==> claims[i].JText? && AcText(claims[i].s))
    && forall i, j :: 0 <= i < j < |claims| ==> claims[i] != claims[j]
  }

  lemma ClaimsOkIs(claims: seq<Json>)
    ensures ClaimsOk(claims) <==> (forall ac :: ac in claims ==> ValidAc(ac)) && DistinctItems(claims)
  {
    hide IsAcId, AcText;
    forall i | 0 <= i < |claims| && claims[i].JText? ensures IsAcId(claims[i].s) <==> AcText(claims[i].s) {
      AcTextIs(claims[i].s);
    }
    assert forall i :: 0 <= i < |claims| ==> claims[i] in claims;
  }

  lemma FieldsPresent(fields: map<string, Json>)
    ensures (forall f :: f in REQUIRED_FIELDS ==> f in fields)
            <==> {"schema_version", "gate", "head_sha", "timestamp", "verdict", "ac_ids"} <= fields.Keys
  {
    var names := {"schema_version", "gate", "head_sha", "timestamp", "verdict", "ac_ids"};
    assert forall f :: f in REQUIRED_FIELDS <==> f in names by {
      var q := REQUIRED_FIELDS;
      assert q[0] == "schema_version" && q[1] == "gate" && q[2] == "head_sha" && q[3] == "timestamp";
      assert q[4] == "verdict" && q[5] == "ac_ids";
    }
  }

  lemma ProvesIs(payload: Json, gate: string, sha: string, show: Json -> string)
    requires ShaText(sha)
    ensures Proves(payload, gate, sha, show) <==> Discharges(payload, gate, sha, show)
  {
    hide ClaimsOk, DistinctItems, ValidAc, ShaText;
    ShaTextIs(sha);
    hide IsSha;
    if payload.JObject? {
      FieldsPresent(payload.fields);
      if "ac_ids" in payload.fields && payload.fields["ac_ids"].JArray? {
        ClaimsOkIs(payload.fields["ac_ids"].items);
      }
    }
  }

  // ---------------------------------------------------------------- the verdict

  /** Nobody knows what the pull request changes, or it changes the manifest or the gate's artifact; d is the evidence
      directory without slashes at its end. */
  ghost predicate OwnGate(r: Run, d: string, gate: string) {
    r.changed.None? || d + "/manifest.json" in r.changed.value || d + "/" + gate + ".json" in r.changed.value
  }

  ghost predicate Proved(r: Run, gate: string, sha: string) {
    r.artifacts(gate).Loaded? && Proves(r.artifacts(gate).payload, gate, sha, r.show)
  }

  lemma WalkStops(chain: seq<Commit>, prefix: string)
    requires chain != []
    ensures exists k: nat :: StopsAt(chain, prefix, k)
  {
    ResolvedIs(chain, prefix, Resolved(chain, prefix));
  }

  lemma StopShas(chain: seq<Commit>, prefix: string, k: nat)
    requires StopsAt(chain, prefix, k) && ShaText(chain[0].sha)
    ensures ShaText(chain[k].sha)
  {
    hide ShaText;
    if k > 0 {
      assert GoesOn(chain, prefix, k - 1);
    }
  }

  /** Exit 0, exactly: no manifest, or no gates, or the tip's id can be read and every gate the pull request could have
      changed has an artifact that proves it on the commit k where the walk stops. */
  lemma ExitZeroIff(r: Run, d: string, k: nat)
    requires Trimmed(r.dir, d) && (r.chain != [] ==> StopsAt(r.chain, d + "/", k))
    ensures Passes(r) <==>
            || r.manifest.NoManifest?
            || (r.manifest.Gates? && r.manifest.required == [])
            || (r.manifest.Gates? && r.chain != [] && ShaText(r.chain[0].sha)
                && forall g :: g in r.manifest.required && OwnGate(r, d, g) ==> Proved(r, g, r.chain[k].sha))
  {
    hide Trimmed, ShaText, IsSha, Proves, Discharges, StopsAt, Resolved;
    TrimmedIs(r.dir, d);
    if r.chain != [] {
      ResolvedIs(r.chain, d + "/", k);
      ShaTextIs(r.chain[0].sha);
      if ShaText(r.chain[0].sha) && r.manifest.Gates? {
        StopShas(r.chain, d + "/", k);
        GatesIff(r, d, r.chain[k].sha);
      }
    }
  }

  lemma GatesIff(r: Run, d: string, sha: string)
    requires d == RStrip(r.dir, SlashChar) && r.manifest.Gates? && ShaText(sha)
    ensures GatesPass(r, r.manifest.required, sha)
            <==> forall g :: g in r.manifest.required && OwnGate(r, d, g) ==> Proved(r, g, sha)
  {
    hide ShaText, Proves, Discharges, RStrip;
    forall g | g in r.manifest.required
      ensures MustVerify(r, g) <==> OwnGate(r, d, g)
      ensures Verified(r, g, sha) <==> Proved(r, g, sha)
    {
      if r.artifacts(g).Loaded? {
        ProvesIs(r.artifacts(g).payload, g, sha, r.show);
      }
    }
    hide MustVerify, OwnGate, Verified, Proved;
  }

  /** The artifact of any other gate does not affect the exit code. */
  lemma OtherGatesIgnored(r: Run, d: string, artifacts: string -> Artifact)
    requires Trimmed(r.dir, d)
    requires forall g :: OwnGate(r, d, g) ==> artifacts(g) == r.artifacts(g)
    ensures Passes(r.(artifacts := artifacts)) <==> Passes(r)
  {
    hide Trimmed, ShaText, Proves, StopsAt, Passes;
    var q := r.(artifacts := artifacts);
    var k: nat := 0;
    if r.chain != [] {
      WalkStops(r.chain, d + "/");
      k :| StopsAt(r.chain, d + "/", k);
    }
    ExitZeroIff(r, d, k);
    ExitZeroIff(q, d, k);
    forall g ensures OwnGate(q, d, g) <==> OwnGate(r, d, g) {
    }
  }
}
