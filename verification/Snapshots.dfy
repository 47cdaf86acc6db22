/** Schema snapshots (schemas/models.py). */
module Snapshots {
  import opened Common
  import opened SchemaMetadata
  import opened Drift

  datatype DiscoveryStatus = Pending | Running | Completed | Failed

  /** What one discovery of a connection's database found: metadata and fingerprints once it has
      completed, and the drift against the connection's previous completed snapshot, if any. */
  datatype SchemaSnapshot = SchemaSnapshot(connectionId: Uuid, sequenceNumber: nat, status: DiscoveryStatus,
                                           metadata: Option<Introspection>, tableFingerprints: map<string, string>,
                                           schemaFingerprint: Option<string>, driftSummary: Option<seq<DriftEvent>>)
}
