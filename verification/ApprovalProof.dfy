/** Binding an approval to the exact artifact that was shown, by hash. */
module ApprovalProof {
  import opened Common
  import opened Texts
  import opened JsonText
  import JsonCanonical

  datatype ArtifactType = PlanArtifact | CheckpointArtifact | DeliveryArtifact | LessonArtifact | UnknownArtifact

  const HYPHEN: CodeUnit := 0x2D
  const HASH_PREFIX_LENGTH := 16

  function TypeName(t: ArtifactType): Text {
    match t
    case PlanArtifact => [0x70, 0x6C, 0x61, 0x6E]
    case CheckpointArtifact => [0x63, 0x68, 0x65, 0x63, 0x6B, 0x70, 0x6F, 0x69, 0x6E, 0x74]
    case DeliveryArtifact => [0x64, 0x65, 0x6C, 0x69, 0x76, 0x65, 0x72, 0x79]
    case LessonArtifact => [0x6C, 0x65, 0x73, 0x73, 0x6F, 0x6E]
    case UnknownArtifact => [0x75, 0x6E, 0x6B, 0x6E, 0x6F, 0x77, 0x6E]
  }

  datatype Binding = Binding(artifactId: Text, artifactHash: Text, artifactType: ArtifactType, createdAt: Text)

  /** A proof as received: any field may be missing. */
  datatype Proof = Proof(
    approvedBy: Option<Text>, approvalSource: Option<Text>, userConfirmationId: Option<Text>,
    artifactId: Option<Text>, artifactHash: Option<Text>)

  datatype Verdict = Approved(proof: Option<Proof>) | Rejected(statusCode: nat)

  /** The digest of the artifact's canonical text; `digest` is the hash. */
  function HashArtifact(digest: Text -> Text, artifact: Json): Text {
    digest(StableStringify(artifact))
  }

  function Prefix(s: Text, n: nat): Text {
    if |s| <= n then s else s[..n]
  }

  function CreateBinding(digest: Text -> Text, artifact: Json, artifactType: ArtifactType, createdAt: Text): Binding {
    var artifactHash := HashArtifact(digest, artifact);
    Binding(TypeName(artifactType) + [HYPHEN] + Prefix(artifactHash, HASH_PREFIX_LENGTH), artifactHash, artifactType, createdAt)
  }

  predicate Given(field: Option<Text>) {
    field.Some? && field.value != []
  }

  predicate Complete(p: Proof) {
    Given(p.approvedBy) && Given(p.approvalSource) && Given(p.userConfirmationId) && Given(p.artifactId) && Given(p.artifactHash)
  }

  function Validate(binding: Binding, proof: Option<Proof>, requireProof: bool): Verdict {
    if !requireProof && proof.None? then Approved(None)
    else if proof.None? || !Complete(proof.value) then Rejected(400)
    else if proof.value.artifactId.value != binding.artifactId || proof.value.artifactHash.value != binding.artifactHash then Rejected(409)
    else Approved(proof)
  }

  /** The proof a user gives after being shown `shown`. */
  function ProofFor(shown: Binding, approvedBy: Text, source: Text, confirmation: Text): Proof {
    Proof(Some(approvedBy), Some(source), Some(confirmation), Some(shown.artifactId), Some(shown.artifactHash))
  }

  ghost predicate CollisionFree(digest: Text -> Text) {
    forall x, y :: digest(x) == digest(y) ==> x == y
  }

  lemma TypeNamesDiffer(t: ArtifactType, u: ArtifactType, x: Text, y: Text)
    requires TypeName(t) + [HYPHEN] + x == TypeName(u) + [HYPHEN] + y
    ensures t == u
  {
    var a, b := TypeName(t) + [HYPHEN] + x, TypeName(u) + [HYPHEN] + y;
    assert a[0] == TypeName(t)[0] && b[0] == TypeName(u)[0];
  }

  /** With a collision-free digest, a full proof of what the user was shown is
      accepted for the pending artifact exactly when both are equal up to the
      order of object members and of the same type. A rejection is a conflict. */
  lemma AcceptedExactlyForTheArtifactShown(
    digest: Text -> Text, shown: Json, shownType: ArtifactType, shownAt: Text,
    pending: Json, pendingType: ArtifactType, pendingAt: Text,
    approvedBy: Text, source: Text, confirmation: Text, requireProof: bool)
    requires CollisionFree(digest) && (forall x :: digest(x) != [])
    requires Proper(shown) && Proper(pending)
    requires approvedBy != [] && source != [] && confirmation != []
    ensures var proof := ProofFor(CreateBinding(digest, shown, shownType, shownAt), approvedBy, source, confirmation);
            var verdict := Validate(CreateBinding(digest, pending, pendingType, pendingAt), Some(proof), requireProof);
            && (verdict == Approved(Some(proof)) <==> Same(shown, pending) && shownType == pendingType)
            && (verdict == Rejected(409) <==> !(Same(shown, pending) && shownType == pendingType))
  {
    JsonCanonical.StableStringifyCanonical(shown, pending);
    var a, b := CreateBinding(digest, shown, shownType, shownAt), CreateBinding(digest, pending, pendingType, pendingAt);
    if a.artifactId == b.artifactId {
      TypeNamesDiffer(shownType, pendingType, Prefix(a.artifactHash, HASH_PREFIX_LENGTH), Prefix(b.artifactHash, HASH_PREFIX_LENGTH));
    }
  }

  /** Whatever proof comes in, it is accepted only in full and for this very
      binding; with no proof at all, only where none is required. */
  lemma AcceptedOnlyInFull(binding: Binding, proof: Option<Proof>, requireProof: bool)
    ensures Validate(binding, proof, requireProof).Approved? <==>
              (proof.None? && !requireProof)
              || (proof.Some? && Complete(proof.value)
                  && proof.value.artifactId == Some(binding.artifactId) && proof.value.artifactHash == Some(binding.artifactHash))
  {
  }

  /** The name of a binding tells the type and begins like the hash. */
  lemma BindingExact(digest: Text -> Text, artifact: Json, t: ArtifactType, createdAt: Text)
    ensures var b := CreateBinding(digest, artifact, t, createdAt);
            var name := match t
                        case PlanArtifact => Ascii("plan")
                        case CheckpointArtifact => Ascii("checkpoint")
                        case DeliveryArtifact => Ascii("delivery")
                        case LessonArtifact => Ascii("lesson")
                        case UnknownArtifact => Ascii("unknown");
            && b.artifactHash == digest(StableStringify(artifact)) && b.artifactType == t && b.createdAt == createdAt
            && b.artifactId == name + Ascii("-") + (if |b.artifactHash| <= 16 then b.artifactHash else b.artifactHash[..16])
  {
    assert [HYPHEN] == Ascii("-");
    assert TypeName(t) == match t
                          case PlanArtifact => Ascii("plan")
                          case CheckpointArtifact => Ascii("checkpoint")
                          case DeliveryArtifact => Ascii("delivery")
                          case LessonArtifact => Ascii("lesson")
                          case UnknownArtifact => Ascii("unknown");
  }

  /** A proof with all five fields, none of them empty. */
  predicate Full(p: Proof) {
    && p.approvedBy != None && p.approvedBy != Some([]) && p.approvalSource != None && p.approvalSource != Some([])
    && p.userConfirmationId != None && p.userConfirmationId != Some([]) && p.artifactId != None && p.artifactId != Some([])
    && p.artifactHash != None && p.artifactHash != Some([])
  }

  predicate Names(p: Proof, binding: Binding) {
    p.artifactId == Some(binding.artifactId) && p.artifactHash == Some(binding.artifactHash)
  }

  /** How a proof is turned down: as a bad request when it is missing or not full,
      and as a conflict when it is for something else. An accepted one is kept. */
  lemma RejectedExactly(binding: Binding, proof: Option<Proof>, requireProof: bool)
    ensures var v := Validate(binding, proof, requireProof);
            && (v == Rejected(400) <==> if proof.None? then requireProof else !Full(proof.value))
            && (v == Rejected(409) <==> proof.Some? && Full(proof.value) && !Names(proof.value, binding))
            && (v.Rejected? ==> v.statusCode == 400 || v.statusCode == 409)
            && (v.Approved? ==> v.proof == proof)
  {
  }
}
