/** Ordered tiers of substrings: the first tier with a term in the text decides. */
module TermCascade {
  import opened Strings

  type Tiers = seq<seq<string>>

  predicate Hits(terms: seq<string>, s: string) {
    exists i :: 0 <= i < |terms| && Includes(s, terms[i])
  }

  /** The tier that decides for `s`; `|tiers|` when none does. */
  function TierOf(tiers: Tiers, s: string): (r: nat)
    ensures r <= |tiers|
    ensures r < |tiers| ==> Hits(tiers[r], s)
    ensures forall j :: 0 <= j < r ==> !Hits(tiers[j], s)
  {
    if tiers == [] then 0
    else if Hits(tiers[0], s) then 0
    else 1 + TierOf(tiers[1..], s)
  }

  /** A term of tier `i` is dead when no text that contains it is ever decided by its tier. */
  ghost predicate Dead(tiers: Tiers, i: nat, t: string) {
    forall s :: Includes(s, t) ==> TierOf(tiers, s) < i
  }

  ghost predicate Shadowed(tiers: Tiers, i: nat, t: string)
    requires i <= |tiers|
  {
    exists j :: 0 <= j < i && Hits(tiers[j], t)
  }

  lemma IncludesSelf(t: string)
    ensures Includes(t, t)
  {
    assert t[0..|t|] == t;
    assert OccursAt(t, t, 0);
  }

  lemma IncludesTransitive(s: string, t: string, u: string)
    requires Includes(s, t) && Includes(t, u)
    ensures Includes(s, u)
  {
    var i :| 0 <= i <= |s| && OccursAt(s, t, i);
    var j :| 0 <= j <= |t| && OccursAt(t, u, j);
    var part := s[i + j..i + j + |u|];
    assert forall k :: 0 <= k < |u| ==> part[k] == s[i..i + |t|][j + k] && t[j..j + |u|][k] == t[j + k];
    assert part == u;
    assert OccursAt(s, u, i + j);
  }

  /** In any cascade a term is dead exactly when it contains a term of an earlier tier. */
  lemma DeadIffShadowed(tiers: Tiers, i: nat, t: string)
    requires i < |tiers| && t in tiers[i]
    ensures Dead(tiers, i, t) <==> Shadowed(tiers, i, t)
  {
    IncludesSelf(t);
    if Shadowed(tiers, i, t) {
      var j :| 0 <= j < i && Hits(tiers[j], t);
      var k :| 0 <= k < |tiers[j]| && Includes(t, tiers[j][k]);
      forall s | Includes(s, t) ensures TierOf(tiers, s) < i {
        IncludesTransitive(s, t, tiers[j][k]);
        assert Hits(tiers[j], s);
      }
    }
  }

  // ---- showing that a term is not contained ---------------------------------------------

  lemma MissingLetter(t: string, u: string, c: char)
    requires c in u && c !in t
    ensures !Includes(t, u)
  {
    var k :| 0 <= k < |u| && u[k] == c;
    forall i | 0 <= i <= |t| ensures !OccursAt(t, u, i) {
      if i + |u| <= |t| {
        assert t[i..i + |u|][k] == t[i + k];
      }
    }
  }

  lemma MissingPair(t: string, u: string, k: nat)
    requires k + 1 < |u|
    requires forall i :: 0 <= i < |t| - 1 ==> t[i] != u[k] || t[i + 1] != u[k + 1]
    ensures !Includes(t, u)
  {
    forall i | 0 <= i <= |t| ensures !OccursAt(t, u, i) {
      if i + |u| <= |t| {
        assert t[i..i + |u|][k] == t[i + k] && t[i..i + |u|][k + 1] == t[i + k + 1];
      }
    }
  }

  /** `c[i]` is a letter of `terms[i]` that `t` lacks, or the term is known not to occur. */
  lemma NoHit(terms: seq<string>, t: string, c: string)
    requires |c| == |terms|
    requires forall i :: 0 <= i < |terms| ==> (c[i] in terms[i] && c[i] !in t) || !Includes(t, terms[i])
    ensures !Hits(terms, t)
  {
    forall i | 0 <= i < |terms| ensures !Includes(t, terms[i]) {
      if c[i] in terms[i] && c[i] !in t { MissingLetter(t, terms[i], c[i]); }
    }
  }

  lemma Hit(terms: seq<string>, t: string, k: nat, at: nat)
    requires k < |terms| && OccursAt(t, terms[k], at)
    ensures Hits(terms, t)
  {
    assert Includes(t, terms[k]);
  }

  // ---- the status tone of the observability panel ---------------------------------------

  const GOOD: seq<string> := [
    "healthy", "ready", "running", "enabled", "ok", "connected", "active", "sandbox_delivered", "success"]
  const DOUBTFUL: seq<string> := ["degraded", "unknown", "not currently reported", "unavailable", "pending"]
  const BAD: seq<string> := ["down", "failed", "error", "unhealthy", "disabled", "blocked"]
  const TONE_TIERS: Tiers := [GOOD, DOUBTFUL, BAD]

  datatype Tone = Success | Warning | Danger | Muted

  /** `toneFor`, on the lower-case text. */
  function ToneFor(normalized: string): Tone {
    var r := TierOf(TONE_TIERS, normalized);
    if r == 0 then Success else if r == 1 then Warning else if r == 2 then Danger else Muted
  }

  lemma Degraded()
    ensures !Hits(GOOD, "degraded")
  {
    NoHit(GOOD, "degraded", "hynnoccss");
  }

  lemma Unknown()
    ensures !Hits(GOOD, "unknown")
  {
    MissingPair("unknown", "ok", 0);
    NoHit(GOOD, "unknown", "hrre_cass");
  }

  lemma NotReported()
    ensures !Hits(GOOD, "not currently reported")
  {
    MissingPair("not currently reported", "connected", 2);
    NoHit(GOOD, "not currently reported", "haiak_aas");
  }

  lemma Unavailable()
    ensures !Hits(GOOD, "unavailable")
  {
    NoHit(GOOD, "unavailable", "hrrdoccss");
  }

  lemma Pending()
    ensures !Hits(GOOD, "pending")
  {
    NoHit(GOOD, "pending", "hrraocass");
  }

  lemma Down()
    ensures !Hits(GOOD, "down")
    ensures !Hits(DOUBTFUL, "down")
  {
    NoHit(GOOD, "down", "hrrekcass");
    NoHit(DOUBTFUL, "down", "gutup");
  }

  lemma Failed()
    ensures !Hits(GOOD, "failed")
    ensures !Hits(DOUBTFUL, "failed")
  {
    NoHit(GOOD, "failed", "hrrnoccss");
    NoHit(DOUBTFUL, "failed", "gutup");
  }

  lemma Error()
    ensures !Hits(GOOD, "error")
    ensures !Hits(DOUBTFUL, "error")
  {
    NoHit(GOOD, "error", "hannkcass");
    NoHit(DOUBTFUL, "error", "gutup");
  }

  lemma Disabled()
    ensures !Hits(GOOD, "disabled")
    ensures !Hits(DOUBTFUL, "disabled")
  {
    NoHit(GOOD, "disabled", "hrrnoccnu");
    NoHit(DOUBTFUL, "disabled", "gutup");
  }

  lemma Blocked()
    ensures !Hits(GOOD, "blocked")
    ensures !Hits(DOUBTFUL, "blocked")
  {
    MissingPair("blocked", "ok", 0);
    NoHit(GOOD, "blocked", "hrrn_nass");
    NoHit(DOUBTFUL, "blocked", "gutup");
  }

  lemma Unhealthy()
    ensures Hits(GOOD, "unhealthy")
  {
    assert "unhealthy"[2..9] == "healthy";
    Hit(GOOD, "unhealthy", 0, 2);
  }

  /** `unhealthy` is the one dead term of the tone cascade: it reads as a success. */
  lemma OnlyUnhealthyIsDead(i: nat, t: string)
    requires i < |TONE_TIERS| && t in TONE_TIERS[i]
    ensures Dead(TONE_TIERS, i, t) <==> t == "unhealthy"
  {
    DeadIffShadowed(TONE_TIERS, i, t);
    if i == 1 {
      Degraded();
      Unknown();
      NotReported();
      Unavailable();
      Pending();
      assert !Hits(GOOD, t);
    } else if i == 2 {
      Down();
      Failed();
      Error();
      Disabled();
      Blocked();
      Unhealthy();
      assert t != "unhealthy" ==> !Hits(GOOD, t) && !Hits(DOUBTFUL, t);
    }
    assert "unhealthy" !in GOOD && "unhealthy" !in DOUBTFUL;
  }

  /** The tone is a success exactly if the text contains a good term, a warning exactly if it
      contains a doubtful one and no good one, a danger exactly if it contains only bad ones. */
  lemma ToneMeaning(normalized: string)
    ensures ToneFor(normalized) == Success <==> Hits(GOOD, normalized)
    ensures ToneFor(normalized) == Warning <==> !Hits(GOOD, normalized) && Hits(DOUBTFUL, normalized)
    ensures ToneFor(normalized) == Danger <==>
              !Hits(GOOD, normalized) && !Hits(DOUBTFUL, normalized) && Hits(BAD, normalized)
  {
    assert TONE_TIERS[0] == GOOD && TONE_TIERS[1] == DOUBTFUL && TONE_TIERS[2] == BAD;
  }

  /** So every text that denies a good state by a prefix or suffix reads as a success. */
  lemma DenialsReadAsSuccess(before: string, good: string, behind: string)
    requires good in GOOD
    ensures ToneFor(before + good + behind) == Success
    ensures ToneFor("unhealthy") == Success
    ensures ToneFor("disconnected") == Success
    ensures ToneFor("inactive") == Success
  {
    Surrounded(before, good, behind);
    Surrounded("un", "healthy", "");
    Surrounded("dis", "connected", "");
    Surrounded("in", "active", "");
    assert GOOD[0] == "healthy" && GOOD[5] == "connected" && GOOD[6] == "active";
    assert "un" + "healthy" + "" == "unhealthy";
    assert "dis" + "connected" + "" == "disconnected";
    assert "in" + "active" + "" == "inactive";
  }

  lemma Surrounded(before: string, good: string, behind: string)
    ensures good in GOOD ==> ToneFor(before + good + behind) == Success
  {
    if good in GOOD {
      var s := before + good + behind;
      assert s[|before|..|before| + |good|] == good;
      assert OccursAt(s, good, |before|);
      ToneMeaning(s);
    }
  }

  // ---- the priority of a GLPI ticket ----------------------------------------------------

  const LOW: seq<string> := ["1", "low"]
  const HIGH: seq<string> := ["3", "high"]
  const CRITICAL: seq<string> := ["4", "critical", "very high"]
  const PRIORITY_TIERS: Tiers := [LOW, HIGH, CRITICAL]

  datatype Priority = Low | High | Critical | Normal

  /** `normalizeGlpiPriority`, on the lower-case text. */
  function NormalizePriority(lower: string): Priority {
    var r := TierOf(PRIORITY_TIERS, lower);
    if r == 0 then Low else if r == 1 then High else if r == 2 then Critical else Normal
  }

  lemma PriorityTerms()
    ensures !Hits(LOW, "3") && !Hits(LOW, "high")
    ensures !Hits(LOW, "4") && !Hits(LOW, "critical")
    ensures !Hits(HIGH, "4") && !Hits(HIGH, "critical")
    ensures Hits(HIGH, "very high")
  {
    NoHit(LOW, "3", "1l");
    NoHit(LOW, "high", "1l");
    NoHit(LOW, "4", "1l");
    NoHit(LOW, "critical", "1o");
    NoHit(HIGH, "4", "3h");
    NoHit(HIGH, "critical", "3h");
    assert "very high"[5..9] == "high";
    Hit(HIGH, "very high", 1, 5);
  }

  lemma PriorityMeaning(lower: string)
    ensures NormalizePriority(lower) == Low <==> Hits(LOW, lower)
    ensures NormalizePriority(lower) == High <==> !Hits(LOW, lower) && Hits(HIGH, lower)
    ensures NormalizePriority(lower) == Critical <==>
              !Hits(LOW, lower) && !Hits(HIGH, lower) && Hits(CRITICAL, lower)
  {
    assert PRIORITY_TIERS[0] == LOW && PRIORITY_TIERS[1] == HIGH && PRIORITY_TIERS[2] == CRITICAL;
  }

  /** A text that contains `very high` never becomes critical: it becomes low if it also names a low
      priority, and high otherwise. */
  lemma VeryHighIsHigh(lower: string)
    requires Includes(lower, "very high")
    ensures NormalizePriority(lower) == if Hits(LOW, lower) then Low else High
    ensures NormalizePriority("very high") == High
  {
    PriorityTerms();
    IncludesSelf("very high");
    var k :| 0 <= k < |HIGH| && Includes("very high", HIGH[k]);
    IncludesTransitive(lower, "very high", HIGH[k]);
    PriorityMeaning(lower);
    PriorityMeaning("very high");
    NoHit(LOW, "very high", "1o");
  }

  /** `very high` is the one dead term of the priority cascade: it normalises to high. */
  lemma OnlyVeryHighIsDead(i: nat, t: string)
    requires i < |PRIORITY_TIERS| && t in PRIORITY_TIERS[i]
    ensures Dead(PRIORITY_TIERS, i, t) <==> t == "very high"
  {
    DeadIffShadowed(PRIORITY_TIERS, i, t);
    PriorityTerms();
    if i == 1 {
      assert !Hits(LOW, t);
    } else if i == 2 {
      assert t != "very high" ==> !Hits(LOW, t) && !Hits(HIGH, t);
      assert t == "very high" ==> Hits(PRIORITY_TIERS[1], t);
    }
    assert "very high" !in LOW && "very high" !in HIGH;
  }
}
