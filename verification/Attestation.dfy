/** The release-attestation half of the deploy gate (release_attestation.py). */
module Attestation {
  import opened Text

  /** A SignedArtifact record; an absent field and an empty one are equally unusable. */
  type Record = map<string, string>

  /** Signature verification is injectable in the source; here it is whatever answers the question. */
  type Verifier = (Record, Option<string>) -> bool

  const REQUIRED_FIELDS: set<string> := {"artifactId", "signer", "algorithm", "timestamp", "signatureRef"}

  datatype Level = Proved | Speculative

  datatype Reason = Absent | MissingFields(fields: set<string>) | OtherArtifact | Unverified | Bound

  datatype Decision = Decision(ok: bool, reason: Reason, level: Level, signer: Option<string>, artifactId: Option<string>)

  function Field(r: Record, key: string): Option<string> {
    if key in r then Some(r[key]) else None
  }

  predicate Usable(r: Record, key: string) {
    key in r && r[key] != ""
  }

  function ExpectedArtifactId(org: string, contentView: string, version: string): string {
    "urn:srcos:content-view:" + org + ":" + contentView + ":" + version
  }

  function VerifyRelease(att: Option<Record>, org: string, contentView: string, version: string,
                         key: Option<string>, verify: Verifier): Decision
  {
    match att
    case None => Decision(false, Absent, Speculative, None, None)
    case Some(r) =>
      var missing := set k | k in REQUIRED_FIELDS && !Usable(r, k);
      var expected := ExpectedArtifactId(org, contentView, version);
      if missing != {} then Decision(false, MissingFields(missing), Speculative, Field(r, "signer"), None)
      else if Field(r, "artifactId") != Some(expected) then
        Decision(false, OtherArtifact, Speculative, Field(r, "signer"), None)
      else if !verify(r, key) then Decision(false, Unverified, Speculative, Field(r, "signer"), Some(expected))
      else Decision(true, Bound, Proved, Field(r, "signer"), Some(expected))
  }

  /** All five fields are there and not empty. */
  predicate Complete(r: Record) {
    && Usable(r, "artifactId") && Usable(r, "signer") && Usable(r, "algorithm") && Usable(r, "timestamp")
    && Usable(r, "signatureRef")
  }

  /** What a record must be to authorise one version: complete, naming that version, accepted by the verifier. */
  predicate Authorises(r: Record, org: string, contentView: string, version: string,
                       key: Option<string>, verify: Verifier)
  {
    && Complete(r)
    && Field(r, "artifactId") == Some(ExpectedArtifactId(org, contentView, version))
    && verify(r, key)
  }

  /** The gate opens exactly for an authorising record, and only an open gate is Proved. */
  lemma GateOpensExactlyWhenAuthorised(att: Option<Record>, org: string, contentView: string, version: string,
                                       key: Option<string>, verify: Verifier)
    ensures var d := VerifyRelease(att, org, contentView, version, key, verify);
            (d.ok <==> att.Some? && Authorises(att.value, org, contentView, version, key, verify)) &&
            (d.ok <==> d.level == Proved)
  {
    if att.Some? { NothingMissing(att.value); }
  }

  lemma NothingMissing(r: Record)
    ensures (set k | k in REQUIRED_FIELDS && !Usable(r, k)) == {} <==> Complete(r)
  {
    var missing := set k | k in REQUIRED_FIELDS && !Usable(r, k);
    if missing != {} { var k :| k in missing; }
    assert forall k :: k in missing <==> k in REQUIRED_FIELDS && !Usable(r, k);
    if missing == {} {
      assert "artifactId" !in missing && "signer" !in missing && "algorithm" !in missing && "timestamp" !in missing
             && "signatureRef" !in missing;
    }
  }

  /** Why a switch is refused: the first fault in this order, with the names of the unusable fields; the decision always
      names the signer the record claims. */
  lemma ReasonsExactly(att: Option<Record>, org: string, contentView: string, version: string, key: Option<string>, verify: Verifier)
    ensures var d := VerifyRelease(att, org, contentView, version, key, verify);
            && (d.reason == Absent <==> att.None?)
            && (d.reason.MissingFields? <==> att.Some? && !Complete(att.value))
            && (d.reason.MissingFields? ==> forall k :: k in d.reason.fields <==>
                  k in {"artifactId", "signer", "algorithm", "timestamp", "signatureRef"} && !Usable(att.value, k))
            && (d.reason == OtherArtifact <==>
                att.Some? && Complete(att.value) && att.value["artifactId"] != ExpectedArtifactId(org, contentView, version))
            && (d.reason == Unverified <==>
                att.Some? && Complete(att.value) && att.value["artifactId"] == ExpectedArtifactId(org, contentView, version)
                && !verify(att.value, key))
            && (d.reason == Bound <==> d.ok)
            && d.signer == (if att.Some? && "signer" in att.value then Some(att.value["signer"]) else None)
  {
    if att.Some? { NothingMissing(att.value); }
  }

  /** The default verifier, with the minisign binary (if any) as an oracle on key, message and signature. */
  function DefaultVerifier(minisign: Option<(string, string, string) -> bool>): Verifier {
    (r: Record, key: Option<string>) =>
      && key.Some? && key.value != ""
      && Usable(r, "signatureRef") && Usable(r, "artifactId")
      && minisign.Some?
      && minisign.value(key.value, r["artifactId"] + "\n",
                        var s := r["signatureRef"]; if s[|s| - 1] == '\n' then s else s + "\n")
  }

  // ---------- the id binds the version ----------

  predicate ColonFree(s: string) {
    ':' !in s
  }

  /** Organisation, content view and version as the id joins them. */
  function Joined(org: string, cv: string, v: string): string {
    org + ":" + cv + ":" + v
  }

  lemma IdsJoin(org: string, cv: string, v: string, org': string, cv': string, v': string)
    ensures ExpectedArtifactId(org, cv, v) == ExpectedArtifactId(org', cv', v') <==> Joined(org, cv, v) == Joined(org', cv', v')
  {
    var p := "urn:srcos:content-view:";
    assert ExpectedArtifactId(org, cv, v) == p + Joined(org, cv, v);
    assert ExpectedArtifactId(org', cv', v') == p + Joined(org', cv', v');
    assert (p + Joined(org, cv, v))[|p|..] == Joined(org, cv, v);
    assert (p + Joined(org', cv', v'))[|p|..] == Joined(org', cv', v');
  }

  lemma JoinedAt(org: string, cv: string, v: string)
    ensures var s := Joined(org, cv, v);
            && |s| == |org| + |cv| + |v| + 2
            && s[..|org|] == org && s[|org|] == ':'
            && s[|org| + 1..|org| + 1 + |cv|] == cv && s[|org| + 1 + |cv|] == ':'
            && s[|org| + 2 + |cv|..] == v
  {
  }

  /** What two triples with one id have in common: they are the same as soon as they are cut at the same places. */
  lemma SameCuts(org: string, cv: string, v: string, org': string, cv': string, v': string)
    requires Joined(org, cv, v) == Joined(org', cv', v') && |org| == |org'| && |cv| == |cv'|
    ensures org == org' && cv == cv' && v == v'
  {
    JoinedAt(org, cv, v);
    JoinedAt(org', cv', v');
  }

  /** Colon-free parts leave no other place to cut. */
  lemma ColonFreeCuts(org: string, cv: string, v: string, org': string, cv': string, v': string)
    requires ColonFree(org) && ColonFree(cv) && ColonFree(v) && Joined(org, cv, v) == Joined(org', cv', v')
    ensures |org| == |org'| && |cv| == |cv'|
  {
    var s := Joined(org, cv, v);
    JoinedAt(org, cv, v);
    JoinedAt(org', cv', v');
    OnlyColons(org, cv, v, |org'|);
    OnlyColons(org, cv, v, |org'| + 1 + |cv'|);
  }

  lemma OnlyColons(org: string, cv: string, v: string, i: nat)
    requires ColonFree(org) && ColonFree(cv) && ColonFree(v)
    requires i < |Joined(org, cv, v)| && Joined(org, cv, v)[i] == ':'
    ensures i == |org| || i == |org| + 1 + |cv|
  {
    var s := Joined(org, cv, v);
    JoinedAt(org, cv, v);
    assert forall k :: 0 <= k < |org| ==> s[k] == org[k];
    assert forall k :: 0 <= k < |cv| ==> s[|org| + 1 + k] == cv[k];
    assert forall k :: |org| < k < |org| + 1 + |cv| ==> s[k] == cv[k - |org| - 1];
    assert forall k :: |org| + 1 + |cv| < k < |s| ==> s[k] == v[k - |org| - 2 - |cv|];
  }

  /** With a colon-free organisation and content view the first two colons end these names. */
  lemma FirstColons(org: string, cv: string, v: string, i: nat, j: nat)
    requires ColonFree(org) && ColonFree(cv)
    requires i < j < |Joined(org, cv, v)| && Joined(org, cv, v)[i] == ':' && Joined(org, cv, v)[j] == ':'
    ensures |org| <= i && |org| + 1 + |cv| <= j
  {
    var s := Joined(org, cv, v);
    JoinedAt(org, cv, v);
    assert forall k :: 0 <= k < |org| ==> s[k] == org[k];
    assert forall k :: |org| < k < |org| + 1 + |cv| ==> s[k] == cv[k - |org| - 1];
  }

  /** The names a triple can be told apart by: organisation and content view without a colon. */
  lemma NamedCuts(org: string, cv: string, v: string, org': string, cv': string, v': string)
    requires ColonFree(org) && ColonFree(cv) && ColonFree(org') && ColonFree(cv')
    requires Joined(org, cv, v) == Joined(org', cv', v')
    ensures |org| == |org'| && |cv| == |cv'|
  {
    JoinedAt(org, cv, v);
    JoinedAt(org', cv', v');
    FirstColons(org, cv, v, |org'|, |org'| + 1 + |cv'|);
    FirstColons(org', cv', v', |org|, |org| + 1 + |cv|);
  }

  /** No other triple has this id. */
  ghost predicate NamesOnlyThis(org: string, cv: string, v: string) {
    forall org', cv', v' :: ExpectedArtifactId(org', cv', v') == ExpectedArtifactId(org, cv, v) ==>
      org' == org && cv' == cv && v' == v
  }

  /** Some other triple with the same id, found by cutting one place to the left or to the right. */
  lemma OtherTriple(org: string, cv: string, v: string, i: nat) returns (org': string, cv': string, v': string)
    requires (i < |org| && org[i] == ':') || (i < |cv| && cv[i] == ':') || (i < |v| && v[i] == ':')
    ensures Joined(org', cv', v') == Joined(org, cv, v) && (org' != org || cv' != cv || v' != v)
  {
    if i < |org| && org[i] == ':' {
      org', cv', v' := org[..i], org[i + 1..] + ":" + cv, v;
      assert org == org[..i] + ":" + org[i + 1..];
      assert Joined(org', cv', v') == Joined(org, cv, v);
    } else if i < |cv| && cv[i] == ':' {
      org', cv', v' := org, cv[..i], cv[i + 1..] + ":" + v;
      assert cv == cv[..i] + ":" + cv[i + 1..];
      assert Joined(org', cv', v') == Joined(org, cv, v);
    } else {
      org', cv', v' := org, cv + ":" + v[..i], v[i + 1..];
      assert v == v[..i] + ":" + v[i + 1..];
      assert Joined(org', cv', v') == Joined(org, cv, v);
    }
  }

  /** An id names one triple and no other exactly when none of its three parts has a colon. */
  lemma ArtifactIdInjective(org: string, cv: string, v: string)
    ensures NamesOnlyThis(org, cv, v) <==> ColonFree(org) && ColonFree(cv) && ColonFree(v)
  {
    if ColonFree(org) && ColonFree(cv) && ColonFree(v) {
      forall org', cv', v' | ExpectedArtifactId(org', cv', v') == ExpectedArtifactId(org, cv, v)
        ensures org' == org && cv' == cv && v' == v
      {
        IdsJoin(org, cv, v, org', cv', v');
        ColonFreeCuts(org, cv, v, org', cv', v');
        SameCuts(org, cv, v, org', cv', v');
      }
    } else {
      var i :| 0 <= i && ((i < |org| && org[i] == ':') || (i < |cv| && cv[i] == ':') || (i < |v| && v[i] == ':'));
      var org', cv', v' := OtherTriple(org, cv, v, i);
      IdsJoin(org, cv, v, org', cv', v');
    }
  }

  /** Between two triples whose organisations and content views have no colon, the id decides even if the versions have
      colons. */
  lemma NamesDecide(org: string, cv: string, v: string, org': string, cv': string, v': string)
    requires ColonFree(org) && ColonFree(cv) && ColonFree(org') && ColonFree(cv')
    ensures ExpectedArtifactId(org, cv, v) == ExpectedArtifactId(org', cv', v') <==> org == org' && cv == cv' && v == v'
  {
    IdsJoin(org, cv, v, org', cv', v');
    if Joined(org, cv, v) == Joined(org', cv', v') {
      NamedCuts(org, cv, v, org', cv', v');
      SameCuts(org, cv, v, org', cv', v');
    }
  }

  /** A colon in a name lets two different content views share one id, and a colon-free organisation and content view are
      no protection when the version has one. */
  lemma ColonsCollide()
    ensures ExpectedArtifactId("a:b", "c", "1") == ExpectedArtifactId("a", "b:c", "1")
    ensures ExpectedArtifactId("a", "b", "c:1") == ExpectedArtifactId("a", "b:c", "1")
  {
    assert Joined("a:b", "c", "1") == Joined("a", "b:c", "1");
    assert Joined("a", "b", "c:1") == Joined("a", "b:c", "1");
    IdsJoin("a:b", "c", "1", "a", "b:c", "1");
    IdsJoin("a", "b", "c:1", "a", "b:c", "1");
  }
}
