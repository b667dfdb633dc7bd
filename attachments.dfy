/**
 * The attachment a record's image field holds, and the store operations on
 * it: `exists`, `reset` and `delete`.
 */
module Attachments {
  import opened Paths

  datatype Attachment = Attachment(filename: string, path: string, size: nat, filetype: string)

  /** What `reset` writes. */
  const Empty := Attachment("", "", 0, "")

  /** Where the attachment's file lives. */
  function StoredAt(a: Attachment): string
  {
    Join(a.path, a.filename)
  }

  /** `exists`: both path and filename are set and the disk holds the file. */
  predicate Exists(a: Attachment, files: set<string>)
  {
    a.path != "" && a.filename != "" && StoredAt(a) in files
  }

  /** The disk after `delete`: the stored file is unlinked only if it exists. */
  function DeleteFiles(a: Attachment, files: set<string>): (r: set<string>)
    ensures r <= files
    ensures files - r == if Exists(a, files) then {StoredAt(a)} else {}
  {
    if Exists(a, files) then files - {StoredAt(a)} else files
  }

  /** `exists` is false after `reset` whatever the disk holds. */
  lemma ResetIsEmpty(files: set<string>)
    ensures !Exists(Empty, files)
  {
  }

  /** `exists` is false for an attachment whose path or filename is empty. */
  lemma EmptyPartNeverExists(a: Attachment, files: set<string>)
    requires a.path == "" || a.filename == ""
    ensures !Exists(a, files)
  {
  }

  /** The disk is authoritative: a recorded file that is gone does not exist. */
  lemma RemovedFileDoesNotExist(a: Attachment, files: set<string>)
    ensures !Exists(a, files - {StoredAt(a)})
  {
  }

  /** Deleting twice (delete, reset, delete) leaves the disk as one delete did. */
  lemma DeleteTwiceIsDeleteOnce(a: Attachment, files: set<string>)
    ensures DeleteFiles(Empty, DeleteFiles(a, files)) == DeleteFiles(a, files)
  {
  }
}
