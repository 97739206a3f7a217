/**
 * The identifier scheme the extractor stamps on its records (the `tm_id` functions). Their
 * definitions (coco_agent/services/tm_id.py) are not part of this model: each one is a field of
 * `IdScheme`, a value every operation that needs identifiers is given, so whatever is proved here
 * holds for every deterministic scheme.
 */
module Identifiers {
  import opened Results

  datatype IdScheme = IdScheme(
    /** `tm_id.encode(value)`. */
    encode: string -> string,
    /** `tm_id.sensor(customer_id, source_type, source_id)`. */
    sensor: (string, string, string) -> string,
    /** `tm_id.git_repo(customer_id, source_id, repo_name)`; the name may be None. */
    gitRepo: (string, string, Option<string>) -> string,
    /** `tm_id.git_commit(hexsha)`. */
    gitCommit: string -> string,
    /** `tm_id.git_commit_diff(hexsha, path)`. */
    gitCommitDiff: (string, string) -> string,
    /** `tm_id.git_path(repo_id, path)`; the repo id and the path may be None. */
    gitPath: (Option<string>, Option<string>) -> string)
}
