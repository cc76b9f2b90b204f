/** Release tags: `<package>-<prefix><semver>`, with the package and prefix
    optional, and the commit the tag points at once it exists. */
module Tags {
  import opened Wrappers
  import opened SemVer
  import opened Repository

  datatype Tag = Tag(package: Option<string>, prefix: Option<string>, version: Version, oid: Option<Oid>) {
    /** The "no release yet" sentinel is recognised by its version alone. */
    predicate IsZero() {
      version == ZeroVersion
    }
  }

  /** The default tag that stands for "no prior release". */
  const ZeroTag := Tag(None, None, ZeroVersion, None)

  /** Why looking up the latest tag failed: no tag at all, or something else
      (a non-semver tag, a bad prefix, a git failure) described by its text. */
  datatype TagError = NoTag | OtherTagError(description: string)
}
