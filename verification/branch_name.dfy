/** How the merge action turns the raw branch selection into the target
    branch name: strip the remote-tracking decoration prefix if present,
    then strip one trailing `]` if present, each independently. */
module BranchName {
  import opened Text

  /** The decoration the branch popup puts in front of a remote branch. */
  const RemotePrefix: string := "[refs/remotes/origin/"

  /** The decoration's closing bracket. */
  const ClosingBracket: string := "]"

  function NormaliseTarget(raw: string): (r: string)
    ensures |raw| - |RemotePrefix| - |ClosingBracket| <= |r| <= |raw|
    ensures StartsWith(raw, RemotePrefix) ==> StartsWith(raw[|RemotePrefix|..], r)
    ensures !StartsWith(raw, RemotePrefix) ==> StartsWith(raw, r)
    ensures r == raw <==> !StartsWith(raw, RemotePrefix) && !EndsWith(raw, ClosingBracket)
    ensures StartsWith(raw, RemotePrefix) && EndsWith(raw, ClosingBracket) ==> RemotePrefix + r + ClosingBracket == raw
    ensures StartsWith(raw, RemotePrefix) && !EndsWith(raw, ClosingBracket) ==> RemotePrefix + r == raw
    ensures !StartsWith(raw, RemotePrefix) && EndsWith(raw, ClosingBracket) ==> r + ClosingBracket == raw
  {
    var unprefixed := if StartsWith(raw, RemotePrefix) then RemovePrefix(raw, RemotePrefix) else raw;
    assert EndsWith(raw, ClosingBracket) <==> EndsWith(unprefixed, ClosingBracket) by {
      if StartsWith(raw, RemotePrefix) {
        assert raw == RemotePrefix + unprefixed;
        assert raw[|raw| - 1] == if |unprefixed| == 0 then '/' else unprefixed[|unprefixed| - 1];
      }
    }
    if EndsWith(unprefixed, ClosingBracket) then RemoveSuffix(unprefixed, ClosingBracket) else unprefixed
  }

  /** A fully decorated remote branch `[refs/remotes/origin/X]` yields exactly `X`. */
  lemma DecoratedRoundTrip(x: string)
    ensures NormaliseTarget(RemotePrefix + x + ClosingBracket) == x
  {
    var raw := RemotePrefix + x + ClosingBracket;
    assert raw[..|RemotePrefix|] == RemotePrefix;
    assert raw[|RemotePrefix|..] == x + ClosingBracket;
  }

  /** Without the prefix a trailing bracket is still removed, and nothing else. */
  lemma TrailingBracketAlone(raw: string)
    requires !StartsWith(raw, RemotePrefix)
    requires EndsWith(raw, ClosingBracket)
    ensures NormaliseTarget(raw) + ClosingBracket == raw
  {
  }

  /** With the prefix but no closing bracket only the prefix is removed. */
  lemma PrefixAlone(raw: string)
    requires StartsWith(raw, RemotePrefix)
    requires !EndsWith(raw, ClosingBracket)
    ensures RemotePrefix + NormaliseTarget(raw) == raw
  {
  }

  /** Normalising an already normalised name changes it exactly when the
      result still carries the prefix or a trailing bracket. */
  lemma NormaliseFixedPoint(raw: string)
    ensures NormaliseTarget(NormaliseTarget(raw)) == NormaliseTarget(raw)
        <==> !StartsWith(NormaliseTarget(raw), RemotePrefix) && !EndsWith(NormaliseTarget(raw), ClosingBracket)
  {
  }

  /** Normalisation is not idempotent: only one trailing bracket goes per pass. */
  lemma BracketStripNotIdempotent()
    ensures NormaliseTarget("a]]") == "a]"
    ensures NormaliseTarget(NormaliseTarget("a]]")) == "a"
  {
    assert !StartsWith("a]]", RemotePrefix);
    assert !StartsWith("a]", RemotePrefix);
    assert EndsWith("a]]", ClosingBracket);
    assert EndsWith("a]", ClosingBracket);
  }

  /** The bare decoration normalises to the empty name: nothing keeps the
      target non-empty. */
  lemma BareDecorationIsEmpty()
    ensures NormaliseTarget(RemotePrefix + ClosingBracket) == ""
  {
    DecoratedRoundTrip("");
  }
}
