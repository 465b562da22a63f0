/**
 Filament colours (src/core/color.ts), the runout decision (src/core/runout.ts) and its application
 to the tables (src/core/filament-service.ts). Whitespace and letter case are those of ASCII.
 */
module Filament {
  import opened Wrappers
  import opened QueueStore
  import opened Text

  // ---- colours ----

  function StripHash(s: string): string { if |s| > 0 && s[0] == '#' then s[1..] else s }

  predicate IsHex(s: string) { forall i :: 0 <= i < |s| ==> '0' <= s[i] <= '9' || 'A' <= s[i] <= 'F' }

  /** The canonical form: "#RRGGBB", or the trimmed upper-case text when it is not a hex colour. */
  function NormalizeColor(raw: string): string {
    var s := Upper(StripHash(Trim(raw)));
    if IsHex(s) && |s| == 3 then ['#', s[0], s[0], s[1], s[1], s[2], s[2]]
    else if IsHex(s) && |s| == 6 then "#" + s
    else if IsHex(s) && |s| == 8 then "#" + s[..6]
    else Upper(Trim(raw))
  }

  predicate SameColor(a: string, b: string) { NormalizeColor(a) == NormalizeColor(b) }

  lemma UpperTwice(s: string)
    ensures Upper(Upper(s)) == Upper(s)
    ensures Upper(StripHash(Upper(s))) == Upper(StripHash(s))
    ensures Trimmed(s) ==> Trimmed(Upper(s))
  {
    assert forall c: char :: UpperChar(UpperChar(c)) == UpperChar(c);
    assert forall c: char :: UpperChar(c) == '#' <==> c == '#';
  }

  /** Normalising is idempotent, so comparing normal forms is comparing colours. */
  lemma NormalizeIdempotent(raw: string)
    ensures NormalizeColor(NormalizeColor(raw)) == NormalizeColor(raw)
  {
    var t, n := Trim(raw), NormalizeColor(raw);
    var s := Upper(StripHash(t));
    TrimDone(raw);
    if IsHex(s) && (|s| == 3 || |s| == 6 || |s| == 8) {
      assert |n| == 7 && n[0] == '#' && IsHex(n[1..]);
      TrimNothing(n);
      assert StripHash(n) == n[1..] && Upper(n[1..]) == n[1..];
      assert n == "#" + n[1..];
    } else {
      UpperTwice(t);
      TrimNothing(n);
    }
  }

  predicate IsColorText(s: string) {
    forall i :: 0 <= i < |s| ==> '0' <= s[i] <= '9' || 'A' <= s[i] <= 'F' || 'a' <= s[i] <= 'f'
  }

  function Hash(hash: bool): string { if hash then "#" else "" }

  /** An optional hash is stripped, and nothing else of a colour text. */
  lemma HashStripped(hash: bool, body: string)
    requires |body| > 0 && IsColorText(body)
    ensures StripHash(Trim(Hash(hash) + body)) == body && IsHex(Upper(body))
  {
    hide TrimLeft, TrimRight;
    var raw := Hash(hash) + body;
    assert raw[|raw| - 1] == body[|body| - 1];
    TrimNothing(raw);
    if hash { assert raw[1..] == body; } else { assert raw == body; }
  }

  lemma NormalizeSix(rgb: string, hash: bool, alpha: string)
    requires |rgb| == 6 && IsColorText(rgb) && IsColorText(alpha) && (|alpha| == 0 || |alpha| == 2)
    ensures NormalizeColor(Hash(hash) + (rgb + alpha)) == "#" + Upper(rgb)
  {
    hide Trim;
    HashStripped(hash, rgb + alpha);
    assert Upper(rgb + alpha)[..6] == Upper(rgb);
    if |alpha| == 0 { assert rgb + alpha == rgb; }
  }

  /** Three digits stand for six, each doubled. */
  lemma ShortNotation(rgb: string, hash: bool, hash': bool)
    requires |rgb| == 3 && IsColorText(rgb)
    ensures SameColor(Hash(hash) + rgb, Hash(hash') + [rgb[0], rgb[0], rgb[1], rgb[1], rgb[2], rgb[2]])
  {
    hide Trim;
    var long := [rgb[0], rgb[0], rgb[1], rgb[1], rgb[2], rgb[2]];
    HashStripped(hash, rgb);
    NormalizeSix(long, hash', "");
    assert long + "" == long;
    var s := Upper(rgb);
    assert NormalizeColor(Hash(hash) + rgb) == ['#', s[0], s[0], s[1], s[1], s[2], s[2]];
    assert "#" + Upper(long) == ['#', s[0], s[0], s[1], s[1], s[2], s[2]];
  }

  /** Six-digit colours compare equal exactly when their digits agree, whatever the case, the hash and the alpha. */
  lemma NotationDoesNotMatter(rgb: string, other: string, hash: bool, hash': bool, alpha: string, alpha': string)
    requires |rgb| == 6 && |other| == 6 && IsColorText(rgb) && IsColorText(other)
    requires IsColorText(alpha) && (|alpha| == 0 || |alpha| == 2)
    requires IsColorText(alpha') && (|alpha'| == 0 || |alpha'| == 2)
    ensures SameColor(Hash(hash) + (rgb + alpha), Hash(hash') + (other + alpha')) <==> Upper(rgb) == Upper(other)
  {
    hide NormalizeColor, Upper;
    NormalizeSix(rgb, hash, alpha);
    NormalizeSix(other, hash', alpha');
    assert ("#" + Upper(rgb))[1..] == Upper(rgb) && ("#" + Upper(other))[1..] == Upper(other);
  }

  // ---- the runout decision ----

  datatype RunoutPolicy = Manual | SameColorOnly | AllowMaterialMatch
  datatype Tray = Tray(slot: int, color: string, material: string, remaining: int)
  datatype Resolution = PendingManual | PendingNoCandidate | Switch(toSlot: int, substituted: Option<string>)

  /** The first tray in the slot. */
  function TrayIn(trays: seq<Tray>, slot: int): (t: Option<Tray>)
    ensures t.Some? ==> t.value in trays && t.value.slot == slot
    ensures t.None? ==> forall x :: x in trays ==> x.slot != slot
    decreases |trays|
  {
    if |trays| == 0 then None else if trays[0].slot == slot then Some(trays[0]) else TrayIn(trays[1..], slot)
  }

  /** A tray that could take over under the policy. */
  predicate Viable(policy: RunoutPolicy, runout: Tray, minimum: int, t: Tray) {
    && t.slot != runout.slot && t.remaining > minimum && t.material == runout.material
    && (policy == SameColorOnly ==> SameColor(t.color, runout.color))
  }

  function FirstViable(trays: seq<Tray>, policy: RunoutPolicy, runout: Tray, minimum: int): (t: Option<Tray>)
    ensures t.Some? ==> t.value in trays && Viable(policy, runout, minimum, t.value)
    ensures t.None? ==> forall x :: x in trays ==> !Viable(policy, runout, minimum, x)
    decreases |trays|
  {
    if |trays| == 0 then None
    else if Viable(policy, runout, minimum, trays[0]) then Some(trays[0])
    else FirstViable(trays[1..], policy, runout, minimum)
  }

  /** The fullest viable tray, the earliest among equals: the head of a stable sort by what remains. */
  function FullestViable(trays: seq<Tray>, policy: RunoutPolicy, runout: Tray, minimum: int): (t: Option<Tray>)
    ensures t.Some? ==> t.value in trays && Viable(policy, runout, minimum, t.value)
    ensures t.Some? ==>
              forall x :: x in trays && Viable(policy, runout, minimum, x) ==> x.remaining <= t.value.remaining
    ensures t.None? ==> forall x :: x in trays ==> !Viable(policy, runout, minimum, x)
    decreases |trays|
  {
    if |trays| == 0 then None
    else
      var rest := FullestViable(trays[1..], policy, runout, minimum);
      if Viable(policy, runout, minimum, trays[0]) && (rest.None? || rest.value.remaining <= trays[0].remaining)
      then Some(trays[0]) else rest
  }

  function ResolveRunout(policy: RunoutPolicy, runoutSlot: int, trays: seq<Tray>, minimum: int): Resolution {
    if policy == Manual then PendingManual
    else
      var runout := TrayIn(trays, runoutSlot);
      if runout.None? then PendingNoCandidate
      else
        var match_ := if policy == SameColorOnly then FirstViable(trays, policy, runout.value, minimum)
                      else FullestViable(trays, policy, runout.value, minimum);
        if match_.None? then PendingNoCandidate
        else Switch(match_.value.slot,
                    if SameColor(match_.value.color, runout.value.color) then None else Some(match_.value.color))
  }

  /** The tray at index `i` is what the resolution switches to: the first one that can take over, or the
      fullest and earliest among equals when colours may differ, with its colour recorded as a substitution
      exactly when the normalised colours differ. */
  predicate Target(policy: RunoutPolicy, runout: Tray, minimum: int, trays: seq<Tray>, r: Resolution, i: nat)
    requires i < |trays|
  {
    var t := trays[i];
    && Viable(policy, runout, minimum, t)
    && r == Switch(t.slot, if SameColor(t.color, runout.color) then None else Some(t.color))
    && if policy == SameColorOnly then NoneViable(policy, runout, minimum, trays[..i])
       else forall k :: 0 <= k < |trays| && Viable(policy, runout, minimum, trays[k]) ==> Fuller(trays, i, k)
  }

  predicate NoneViable(policy: RunoutPolicy, runout: Tray, minimum: int, trays: seq<Tray>) {
    forall x :: x in trays ==> !Viable(policy, runout, minimum, x)
  }

  /** The tray at `i` goes before the one at `k`. */
  predicate Fuller(trays: seq<Tray>, i: nat, k: nat)
    requires i < |trays| && k < |trays|
  {
    trays[k].remaining < trays[i].remaining || (trays[k].remaining == trays[i].remaining && i <= k)
  }

  lemma {:induction false} FirstViableAt(trays: seq<Tray>, policy: RunoutPolicy, runout: Tray, minimum: int)
      returns (i: nat)
    requires FirstViable(trays, policy, runout, minimum).Some?
    ensures i < |trays| && FirstViable(trays, policy, runout, minimum) == Some(trays[i])
    ensures NoneViable(policy, runout, minimum, trays[..i])
    decreases |trays|
  {
    hide Viable;
    if Viable(policy, runout, minimum, trays[0]) {
      i := 0;
    } else {
      var k := FirstViableAt(trays[1..], policy, runout, minimum);
      i := k + 1;
      assert trays[..i] == [trays[0]] + trays[1..][..k];
    }
  }

  lemma {:induction false} FullestViableAt(trays: seq<Tray>, policy: RunoutPolicy, runout: Tray, minimum: int)
      returns (i: nat)
    requires FullestViable(trays, policy, runout, minimum).Some?
    ensures i < |trays| && FullestViable(trays, policy, runout, minimum) == Some(trays[i])
    ensures forall k :: 0 <= k < |trays| && Viable(policy, runout, minimum, trays[k]) ==> Fuller(trays, i, k)
    decreases |trays|
  {
    hide Viable;
    var rest := FullestViable(trays[1..], policy, runout, minimum);
    if Viable(policy, runout, minimum, trays[0]) && (rest.None? || rest.value.remaining <= trays[0].remaining) {
      i := 0;
      forall k | 1 <= k < |trays| && Viable(policy, runout, minimum, trays[k])
        ensures trays[k].remaining <= trays[0].remaining
      { assert trays[k] == trays[1..][k - 1]; }
    } else {
      var j := FullestViableAt(trays[1..], policy, runout, minimum);
      i := j + 1;
      forall k | 1 <= k < |trays| && Viable(policy, runout, minimum, trays[k])
        ensures Fuller(trays, i, k)
      { assert trays[k] == trays[1..][k - 1] && Fuller(trays[1..], j, k - 1); }
    }
  }

  /** A runout switches exactly when the policy is not manual, the empty tray is known, and some tray can
      take over; the target is the first such tray, or the fullest and earliest one when colours may differ;
      and the same-colour policy never records a substitution. */
  lemma SwitchExactly(policy: RunoutPolicy, slot: int, trays: seq<Tray>, minimum: int)
    ensures var r, runout := ResolveRunout(policy, slot, trays, minimum), TrayIn(trays, slot);
            && (r.Switch? <==>
                policy != Manual && runout.Some? && exists t :: t in trays && Viable(policy, runout.value, minimum, t))
            && (r.Switch? ==> exists i :: 0 <= i < |trays| && Target(policy, runout.value, minimum, trays, r, i))
            && (r.Switch? && policy == SameColorOnly ==> r.substituted.None?)
  {
    hide NormalizeColor;
    var r, runout := ResolveRunout(policy, slot, trays, minimum), TrayIn(trays, slot);
    if r.Switch? {
      var i: nat;
      if policy == SameColorOnly {
        i := FirstViableAt(trays, policy, runout.value, minimum);
      } else {
        i := FullestViableAt(trays, policy, runout.value, minimum);
      }
      assert Target(policy, runout.value, minimum, trays, r, i);
    }
  }

  // ---- applying the decision ----

  datatype RunoutNote =
    | RunoutPending(job: nat)
    | FilamentSwitched(job: nat, from: int, to: int, substituted: Option<string>)

  function EffectivePolicy(v: Option<string>): RunoutPolicy {
    if v == Some("same_color_only") then SameColorOnly
    else if v == Some("allow_material_match") then AllowMaterialMatch else Manual
  }

  /** A job's own policy goes before the system setting. */
  function PolicyFor(db: Db, job: nat): RunoutPolicy {
    var row := GetJob(db, job);
    EffectivePolicy(
      if row.Some? && row.value.runoutOverride.Some? then row.value.runoutOverride
      else if "filament_runout_policy" in db.settings then Some(db.settings["filament_runout_policy"]) else None)
  }

  /** The tables after a runout; a failed resume leaves them alone. */
  function AfterRunout(db: Db, job: nat, r: Resolution, resumeOk: bool): Db {
    if !r.Switch? then
      if CanReference(db, Some(job), None) then WithPending(db, FilamentRunout, BlockingJob, Some(job), None) else db
    else if resumeOk && r.substituted.Some? then Patched(db, job, SetSubstitution(r.toSlot, r.substituted.value))
    else db
  }

  class FilamentService {
    const repo: Repo
    const minThreshold: int
    var notes: seq<RunoutNote>

    constructor (repo: Repo, minThreshold: int := 0)
      ensures this.repo == repo && this.minThreshold == minThreshold && notes == []
    {
      this.repo, this.minThreshold, notes := repo, minThreshold, [];
    }

    /** `trays` is the live state of the changer; `resumeOk` says whether the printer took the resume. */
    method OnRunout(job: nat, slot: int, trays: seq<Tray>, resumeOk: bool) returns (threw: bool)
      requires Consistent(repo.db)
      modifies repo, this`notes
      ensures Consistent(repo.db)
      ensures var r := ResolveRunout(PolicyFor(old(repo.db), job), slot, trays, minThreshold);
              && repo.db == AfterRunout(old(repo.db), job, r, resumeOk)
              && threw == (if r.Switch? then !resumeOk else !CanReference(old(repo.db), Some(job), None))
              && notes == old(notes) + (if threw then []
                                        else if r.Switch? then [FilamentSwitched(job, slot, r.toSlot, r.substituted)]
                                        else [RunoutPending(job)])
    {
      var r := ResolveRunout(PolicyFor(repo.db, job), slot, trays, minThreshold);
      if !r.Switch? {
        var ok := repo.CreatePendingAction(FilamentRunout, BlockingJob, Some(job), None);
        if !ok { return true; }
        notes := notes + [RunoutPending(job)];
        return false;
      }
      if !resumeOk { return true; }
      if r.substituted.Some? {
        repo.UpdateJob(job, SetSubstitution(r.toSlot, r.substituted.value));
      }
      notes := notes + [FilamentSwitched(job, slot, r.toSlot, r.substituted)];
      threw := false;
    }
  }
}
