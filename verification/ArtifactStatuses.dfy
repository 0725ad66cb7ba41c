/** The stored status of an outreach artifact. */
module ArtifactStatuses {
  datatype ArtifactStatus =
    | DRAFT | PENDING_REVIEW | APPROVED | REJECTED | SENDING | SENT | SUPPRESSED
    | SIMULATED | DELIVERY_UNKNOWN | FAILED | QUEUED | REPLIED | BOUNCED
}
