/** Particular `--additional-kind` values and what the validation does with
    them, including the example of the source's own doc comment, which is
    refused, and the byte-level reading of the Kind's first letter. Each
    entry is given by its dot-separated parts; a spelling lemma shows the
    entry the parts join into. */
module ConfigExamples {
  import opened Wrappers
  import opened GoStrings
  import opened Config

  /** "ManagedCertificate.v1beta1.networking.gke.io" */
  const MANAGED_CERTIFICATE: seq<GoString> := ["ManagedCertificate", "v1beta1", "networking", "gke", "io"]

  /** "managedcertificate.v1beta1.networking.gke.io", the doc comment's example */
  const DOC_COMMENT_EXAMPLE: seq<GoString> := ["managedcertificate", "v1beta1", "networking", "gke", "io"]

  /** ".v1beta1.networking.gke.io": an entry whose Kind is missing */
  const MISSING_KIND: seq<GoString> := ["", "v1beta1", "networking", "gke", "io"]

  /** "a.b.c" */
  const SHORT: seq<GoString> := ["a", "b", "c"]

  /** "évent.v1.example.com" in UTF-8: 'é' is U+00E9, encoded 0xC3 0xA9 */
  const LOWER_E_ACUTE: seq<GoString> := ["\U{C3}\U{A9}vent", "v1", "example", "com"]

  /** "event.v1.example.com" */
  const LOWER_ASCII: seq<GoString> := ["event", "v1", "example", "com"]

  /** The entry `MANAGED_CERTIFICATE` spells. */
  lemma SpellingOfManagedCertificate()
    ensures Join(MANAGED_CERTIFICATE, DOT) == "ManagedCertificate.v1beta1.networking.gke.io"
  {
  }

  /** The entry `DOC_COMMENT_EXAMPLE` spells. */
  lemma SpellingOfDocCommentExample()
    ensures Join(DOC_COMMENT_EXAMPLE, DOT) == "managedcertificate.v1beta1.networking.gke.io"
  {
  }

  /** The entry `MISSING_KIND` spells. */
  lemma SpellingOfMissingKind()
    ensures Join(MISSING_KIND, DOT) == ".v1beta1.networking.gke.io"
  {
  }

  /** The entry `SHORT` spells. */
  lemma SpellingOfShort()
    ensures Join(SHORT, DOT) == "a.b.c"
  {
  }

  /** The entry `LOWER_E_ACUTE` spells. */
  lemma SpellingOfLowerEAcute()
    ensures Join(LOWER_E_ACUTE, DOT) == "\U{C3}\U{A9}vent.v1.example.com"
  {
  }

  /** The entry `LOWER_ASCII` spells. */
  lemma SpellingOfLowerAscii()
    ensures Join(LOWER_ASCII, DOT) == "event.v1.example.com"
  {
  }

  /** A fully qualified kind whose group has two dots has five parts and is
      accepted: parts beyond the fourth belong to the group. The entry is
      spelled out by `SpellingOfManagedCertificate`. */
  lemma ManagedCertificateAccepted()
    ensures Split(Join(MANAGED_CERTIFICATE, DOT), DOT) == MANAGED_CERTIFICATE
    ensures EntryError(Join(MANAGED_CERTIFICATE, DOT)) == None
  {
    SplitJoin(MANAGED_CERTIFICATE, DOT);
  }

  /** The example given in the doc comment of `validateAdditionalResources`
      has a lower-case Kind and is refused, naming that Kind. The entry is
      spelled out by `SpellingOfDocCommentExample`. */
  lemma DocCommentExampleRefused()
    ensures EntryError(Join(DOC_COMMENT_EXAMPLE, DOT)) == Some(NotCapitalized("managedcertificate"))
  {
    SplitJoin(DOC_COMMENT_EXAMPLE, DOT);
  }

  /** Splitting always yields at least one part, so the empty entry is
      refused for having too few parts, like "a.b.c"; and a short entry after
      an accepted one is the one reported. The entries are spelled out by
      `SpellingOfShort` and `SpellingOfManagedCertificate`. */
  lemma ShortEntriesRefused()
    ensures EntryError("") == Some(NotFullForm(""))
    ensures EntryError(Join(SHORT, DOT)) == Some(NotFullForm(Join(SHORT, DOT)))
    ensures FirstKindError([Join(MANAGED_CERTIFICATE, DOT), Join(SHORT, DOT)]) ==
      Some(NotFullForm(Join(SHORT, DOT)))
  {
    SplitJoin(SHORT, DOT);
    assert EntryError(Join(SHORT, DOT)) == Some(NotFullForm(Join(SHORT, DOT)));
    ManagedCertificateAccepted();
    var list := [Join(MANAGED_CERTIFICATE, DOT), Join(SHORT, DOT)];
    FirstKindErrorAt(list, 0);
    FirstKindErrorAt(list, 1);
    assert list[0..] == list;
  }

  /** An entry without its Kind has five parts and an empty Kind part. The
      corrected check refuses it as not capitalised; by the contract of
      `ValidateAdditionalResourcesAsWritten`, the Go code panics on it. The
      entry is spelled out by `SpellingOfMissingKind`. */
  lemma MissingKindPanicsAsWritten()
    ensures FirstKindError([Join(MISSING_KIND, DOT)]) == Some(NotCapitalized([]))
  {
    SplitJoin(MISSING_KIND, DOT);
  }

  /** The as-written loop panics on the Kind-less entry. */
  method MissingKindPanics() returns (o: Outcome)
    ensures o == IndexOutOfRange
  {
    MissingKindPanicsAsWritten();
    o := ValidateAdditionalResourcesAsWritten([Join(MISSING_KIND, DOT)]);
  }

  /** An empty command line validates, whatever the filesystem, to its
      default record with a `nil` `TargetVersion`. */
  method EmptyCommandLine(kubeconfigEnv: GoString, host: Host) returns (r: Result<Config, Error>)
    ensures r == Ok(Defaults(kubeconfigEnv).(targetVersion := None))
  {
    DefaultsPassValidation(kubeconfigEnv, host);
    r := NewFromFlags(Defaults(kubeconfigEnv), host);
  }

  /** Entries after the first refused one are not examined: a short entry
      before a Kind-less one is reported, so the Go code never reaches the
      entry it would panic on. The entries are spelled out by
      `SpellingOfShort` and `SpellingOfMissingKind`. */
  lemma FirstRefusedEntryHidesLaterOnes()
    ensures FirstKindError([Join(SHORT, DOT), Join(MISSING_KIND, DOT)]) ==
      Some(NotFullForm(Join(SHORT, DOT)))
  {
    SplitJoin(SHORT, DOT);
  }

  /** Only the first byte of the Kind is classified. In UTF-8 both 'É'
      (U+00C9) and 'é' (U+00E9) start with the byte 0xC3, which read as the
      code point U+00C3 is an upper-case letter, so a Kind starting with a
      lower-case 'é' is accepted, while one starting with an ASCII 'e' is
      not. The entries are spelled out by `SpellingOfLowerEAcute` and
      `SpellingOfLowerAscii`. */
  lemma LeadByteDecidesCapitalisation()
    ensures EntryError(Join(LOWER_E_ACUTE, DOT)) == None
    ensures EntryError(Join(LOWER_ASCII, DOT)) == Some(NotCapitalized("event"))
  {
    SplitJoin(LOWER_E_ACUTE, DOT);
    SplitJoin(LOWER_ASCII, DOT);
  }
}
