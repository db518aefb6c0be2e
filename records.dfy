/**
 * The record shapes the in-memory catalog stores (dor/models/domain.py). They
 * differ from the domain records: a file carries one checksum and no path, a
 * fileset has a type and no title, and an object has no collections.
 */
module Records {
  import Domain

  datatype Checksum = Checksum(id: int, algorithm: string, digest: string, createdAt: Domain.Timestamp)

  datatype ObjectFile = ObjectFile(
    identifier: Domain.Uuid,
    fileFormat: string,
    fileFunction: string,
    size: int,
    digest: string,
    createdAt: Domain.Timestamp,
    lastFixityCheck: Domain.Timestamp,
    checksum: Checksum)

  datatype FileSet = FileSet(
    identifier: Domain.Uuid,
    alternateIdentifiers: seq<string>,
    setType: string,
    revisionNumber: int,
    createdAt: Domain.Timestamp,
    objectFiles: seq<ObjectFile>,
    premisEvents: seq<Domain.PremisEvent>)

  datatype IntellectualObject = IntellectualObject(
    identifier: Domain.Uuid,
    binIdentifier: Domain.Uuid,
    alternateIdentifiers: seq<string>,
    objectType: string,
    revisionNumber: int,
    createdAt: Domain.Timestamp,
    title: string,
    description: string,
    filesets: seq<FileSet>,
    objectFiles: seq<ObjectFile>,
    premisEvents: seq<Domain.PremisEvent>)
}
