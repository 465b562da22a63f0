/**
 Names of print artifacts (src/core/artifact.ts) and the attribution of a printer report to a job
 (src/orchestrator/monitor.ts): the monitor looks for `job-<id>.` inside the reported subtask name.
 The theorem is that this test identifies the job: it holds for the artifact of that job and for no
 other job's artifact, nor for the eject and dry-rehearsal artifacts.
 */
module ArtifactNames {
  import opened Text

  // ---- decimal rendering ----

  function Digit(d: nat): (c: char)
    requires d < 10
    ensures '0' <= c <= '9'
  {
    '0' + d as char
  }

  function Decimal(n: nat): (s: string)
    ensures |s| > 0 && forall i :: 0 <= i < |s| ==> '0' <= s[i] <= '9'
  {
    if n < 10 then [Digit(n)] else Decimal(n / 10) + [Digit(n % 10)]
  }

  /** Different numbers are written differently. */
  lemma {:induction false} DecimalInjective(m: nat, n: nat)
    requires Decimal(m) == Decimal(n)
    ensures m == n
  {
    var s, t := Decimal(m), Decimal(n);
    assert s[|s| - 1] == Digit(m % 10) && t[|t| - 1] == Digit(n % 10);
    assert Digit(m % 10) as int - '0' as int == m % 10 && Digit(n % 10) as int - '0' as int == n % 10;
    assert (m < 10 <==> |s| == 1) && (n < 10 <==> |t| == 1);
    if m >= 10 {
      assert s[..|s| - 1] == Decimal(m / 10) && t[..|t| - 1] == Decimal(n / 10);
      DecimalInjective(m / 10, n / 10);
    }
  }

  // ---- names ----

  const EJECT_ARTIFACT_NAME := "eject.gcode.3mf"
  const DRY_REHEARSAL_ARTIFACT := "dry-rehearsal.gcode.3mf"

  function PrintArtifactName(id: nat): string { "job-" + Decimal(id) + ".gcode.3mf" }

  function JobSubtaskPrefix(id: nat): string { "job-" + Decimal(id) + "." }

  // ---- a prefix occurs where its letter j stands ----

  /** The prefix starts with "jo", so an occurrence puts those letters into the text. */
  lemma OccurrenceStart(text: string, id: nat, k: nat)
    requires OccursAt(text, JobSubtaskPrefix(id), k)
    ensures k + 1 < |text| && text[k] == 'j' && text[k + 1] == 'o'
  {
    var p := JobSubtaskPrefix(id);
    assert p[0] == 'j' && p[1] == 'o';
    assert text[k] == text[k..k + |p|][0] && text[k + 1] == text[k..k + |p|][1];
  }

  /** In a job's artifact name no character but the first is a j. */
  lemma NameHasOneJ(id: nat, k: nat)
    requires 0 < k < |PrintArtifactName(id)|
    ensures PrintArtifactName(id)[k] != 'j'
  {
    var s, n, tail := PrintArtifactName(id), |Decimal(id)|, ".gcode.3mf";
    assert s == "job-" + Decimal(id) + tail;
    if k >= 4 + n {
      assert s[k] == tail[k - 4 - n];
    } else if k >= 4 {
      assert s[k] == Decimal(id)[k - 4];
    }
  }

  /** A number followed by a dot is read off uniquely. */
  lemma {:induction false} DigitsToDot(a: string, b: string, rest: string)
    requires forall i :: 0 <= i < |a| ==> '0' <= a[i] <= '9'
    requires forall i :: 0 <= i < |b| ==> '0' <= b[i] <= '9'
    requires |a| + 1 <= |b| + 1 + |rest| && (b + "." + rest)[..|a| + 1] == a + "."
    ensures a == b
  {
    var t, u := b + "." + rest, a + ".";
    assert forall i :: 0 <= i < |u| ==> t[i] == t[..|u|][i] == u[i];
    assert forall i :: 0 <= i < |a| ==> u[i] == a[i];
    assert u[|a|] == '.' && t[|a|] == '.' && t[|b|] == '.';
    assert forall i :: 0 <= i < |b| ==> t[i] == b[i];
    assert |a| == |b|;
  }

  /** The name of job i's artifact contains the prefix of job j exactly when they are the same job. */
  lemma AttributionIsInjective(i: nat, j: nat)
    ensures Includes(PrintArtifactName(i), JobSubtaskPrefix(j)) <==> i == j
  {
    hide Decimal;
    var name, prefix := PrintArtifactName(i), JobSubtaskPrefix(j);
    if i == j {
      assert name == prefix + "gcode.3mf";
      assert OccursAt(name, prefix, 0);
    } else if Includes(name, prefix) {
      var k :| 0 <= k <= |name| && OccursAt(name, prefix, k);
      OccurrenceStart(name, j, k);
      if k > 0 { NameHasOneJ(i, k); }
      PrefixAtStart(i, j);
      DigitsToDot(Decimal(j), Decimal(i), "gcode.3mf");
      DecimalInjective(i, j);
    }
  }

  lemma PrefixAtStart(i: nat, j: nat)
    requires OccursAt(PrintArtifactName(i), JobSubtaskPrefix(j), 0)
    ensures var a, t := Decimal(j), Decimal(i) + "." + "gcode.3mf"; |a| + 1 <= |t| && t[..|a| + 1] == a + "."
  {
    hide Decimal;
    var a, t := Decimal(j), Decimal(i) + "." + "gcode.3mf";
    assert PrintArtifactName(i) == "job-" + t && JobSubtaskPrefix(j) == "job-" + (a + ".");
    StripFront("job-", a + ".", t);
  }

  lemma StripFront(front: string, part: string, text: string)
    requires OccursAt(front + text, front + part, 0)
    ensures |part| <= |text| && text[..|part|] == part
  {
    forall k | 0 <= k < |part|
      ensures text[k] == part[k]
    {
      assert (front + text)[..|front + part|][|front| + k] == (front + part)[|front| + k];
    }
  }

  /** Neither the eject nor the dry-rehearsal artifact is ever attributed to a job. */
  lemma OtherArtifactsUnattributed(j: nat)
    ensures !Includes(EJECT_ARTIFACT_NAME, JobSubtaskPrefix(j))
    ensures !Includes(DRY_REHEARSAL_ARTIFACT, JobSubtaskPrefix(j))
  {
    var prefix := JobSubtaskPrefix(j);
    if Includes(EJECT_ARTIFACT_NAME, prefix) {
      var k :| 0 <= k <= |EJECT_ARTIFACT_NAME| && OccursAt(EJECT_ARTIFACT_NAME, prefix, k);
      OccurrenceStart(EJECT_ARTIFACT_NAME, j, k);
    }
    if Includes(DRY_REHEARSAL_ARTIFACT, prefix) {
      var k :| 0 <= k <= |DRY_REHEARSAL_ARTIFACT| && OccursAt(DRY_REHEARSAL_ARTIFACT, prefix, k);
      OccurrenceStart(DRY_REHEARSAL_ARTIFACT, j, k);
    }
  }
}
