/** How a profile name becomes a route slug and a stored full name (`normalizeProfileInput`,
    `normalizeRouteSlug`), and when reading a stored name back gives it again. */
module ProfileNames {
  import opened Options
  import opened Texts

  datatype Source = Wallet | Ens | ExternalSubname | NftfactorySubname

  datatype Name = Name(slug: string, fullName: string)

  const SUFFIX: string := ".nftfactory.eth"

  function NormalizeSubname(input: string): string {
    var raw := Lower(Trim(input));
    if |SUFFIX| <= |raw| && raw[|raw| - |SUFFIX|..] == SUFFIX then raw[..|raw| - |SUFFIX|] else raw
  }

  /** Runs of dots become one dot. */
  function Collapse(s: string): string {
    if |s| < 2 then s
    else if s[0] == '.' && s[1] == '.' then Collapse(s[1..])
    else [s[0]] + Collapse(s[1..])
  }

  function StripFirstDot(s: string): string { if s != "" && s[0] == '.' then s[1..] else s }
  function StripLastDot(s: string): string { if s != "" && s[|s| - 1] == '.' then s[..|s| - 1] else s }
  function Clean(s: string): string { StripLastDot(StripFirstDot(Collapse(s))) }

  function Split(s: string): (labels: seq<string>)
    ensures labels != []
  {
    if s == "" then [""]
    else
      var rest := Split(s[1..]);
      if s[0] == '.' then [""] + rest else [[s[0]] + rest[0]] + rest[1..]
  }

  function NonEmpty(labels: seq<string>): seq<string> {
    if labels == [] then []
    else if labels[0] == "" then NonEmpty(labels[1..])
    else [labels[0]] + NonEmpty(labels[1..])
  }

  /** The labels joined by dots, last one first. */
  function JoinReversed(labels: seq<string>): string {
    if labels == [] then ""
    else if |labels| == 1 then labels[0]
    else JoinReversed(labels[1..]) + "." + labels[0]
  }

  predicate ValidLabels(labels: seq<string>) {
    forall i | 0 <= i < |labels| :: NormalizeSubname(labels[i]) != ""
  }

  function NameOfLabels(fullName: string): Option<Name> {
    var labels := NonEmpty(Split(fullName));
    if labels == [] || !ValidLabels(labels) || fullName == "" then None else Some(Name(JoinReversed(labels), fullName))
  }

  function NormalizeProfileInput(name: string, source: Source): Option<Name> {
    var raw := Lower(Trim(name));
    if raw == "" then None
    else if source.Wallet? then if IsAddress(raw) then Some(Name(raw, raw)) else None
    else if source.NftfactorySubname? then
      var slug := NormalizeSubname(raw);
      if slug == "" then None else Some(Name(slug, slug + SUFFIX))
    else NameOfLabels(Clean(raw))
  }

  function NormalizeRouteSlug(value: string): Option<string> {
    var raw := Lower(Trim(value));
    var normalized := Clean(raw);
    if normalized == "" || !ValidLabels(Split(normalized)) then None else Some(normalized)
  }

  /** Reading the stored full name gives the name again. */
  predicate Stable(n: Name, source: Source) {
    NormalizeProfileInput(n.fullName, source) == Some(n)
  }

  // ----- trimming and letter case -----

  predicate Trimmed(s: string) {
    s != "" && !IsSpace(s[0]) && !IsSpace(s[|s| - 1])
  }

  predicate LowerText(s: string) {
    forall i | 0 <= i < |s| :: LowerChar(s[i]) == s[i]
  }

  lemma {:induction false} TrimStartShape(s: string)
    ensures |TrimStart(s)| <= |s| && (|TrimStart(s)| == |s| ==> TrimStart(s) == s)
    ensures TrimStart(s) == "" || !IsSpace(TrimStart(s)[0])
  {
    hide IsSpace;
    if s != "" && IsSpace(s[0]) {
      TrimStartShape(s[1..]);
    }
  }

  lemma {:induction false} TrimEndShape(s: string)
    ensures |TrimEnd(s)| <= |s| && TrimEnd(s) == s[..|TrimEnd(s)|]
    ensures TrimEnd(s) == "" || !IsSpace(TrimEnd(s)[|TrimEnd(s)| - 1])
  {
    hide IsSpace;
    if s != "" && IsSpace(s[|s| - 1]) {
      TrimEndShape(s[..|s| - 1]);
    }
  }

  lemma TrimShape(s: string)
    ensures |Trim(s)| <= |s| && (|Trim(s)| == |s| ==> Trim(s) == s)
    ensures Trim(s) == "" || Trimmed(Trim(s))
  {
    hide IsSpace;
    TrimStartShape(s);
    TrimEndShape(TrimStart(s));
  }

  lemma LowerCharTwice(c: char)
    ensures LowerChar(LowerChar(c)) == LowerChar(c) && (IsSpace(LowerChar(c)) <==> IsSpace(c))
  {}

  lemma LowerKeeps(s: string)
    ensures LowerText(Lower(s)) && (Trimmed(s) ==> Trimmed(Lower(s)))
  {
    hide IsSpace, LowerChar;
    forall i | 0 <= i < |s|
      ensures LowerChar(Lower(s)[i]) == Lower(s)[i] && (IsSpace(Lower(s)[i]) <==> IsSpace(s[i]))
    {
      LowerCharTwice(s[i]);
    }
  }

  lemma LowerTextKept(s: string)
    requires LowerText(s)
    ensures Lower(s) == s
  {}

  /** A trimmed lower-case text is left alone. */
  lemma RawKept(s: string)
    requires Trimmed(s) && LowerText(s)
    ensures Lower(Trim(s)) == s
  {
    NothingToTrim(s);
    LowerTextKept(s);
  }

  lemma RawShape(s: string)
    ensures var raw := Lower(Trim(s)); LowerText(raw) && (raw == "" || Trimmed(raw)) && |raw| <= |s|
  {
    TrimShape(s);
    LowerKeeps(Trim(s));
  }

  // ----- dots -----

  predicate SingleDots(s: string) {
    forall i | 0 <= i < |s| - 1 :: !(s[i] == '.' && s[i + 1] == '.')
  }

  predicate CleanText(s: string) {
    SingleDots(s) && (s != "" ==> s[0] != '.' && s[|s| - 1] != '.')
  }

  lemma {:induction false} CollapseShape(s: string)
    requires LowerText(s)
    ensures SingleDots(Collapse(s)) && LowerText(Collapse(s)) && |Collapse(s)| <= |s|
    ensures s != "" ==> Collapse(s) != "" && Collapse(s)[0] == s[0]
  {
    hide LowerChar;
    if |s| >= 2 {
      CollapseShape(s[1..]);
    }
  }

  lemma CleanShape(s: string)
    requires LowerText(s)
    ensures CleanText(Clean(s)) && LowerText(Clean(s)) && |Clean(s)| <= |s|
  {
    hide LowerChar;
    CollapseShape(s);
  }

  lemma {:induction false} CollapseKept(s: string)
    requires SingleDots(s)
    ensures Collapse(s) == s
  {
    if |s| >= 2 {
      CollapseKept(s[1..]);
      assert s == [s[0]] + s[1..];
    }
  }

  lemma CleanKept(s: string)
    requires CleanText(s)
    ensures Clean(s) == s
  {
    CollapseKept(s);
  }

  // ----- reading a stored name back -----

  lemma WalletStable(name: string)
    requires NormalizeProfileInput(name, Wallet).Some?
    ensures Stable(NormalizeProfileInput(name, Wallet).value, Wallet)
  {
    hide LowerChar, Trim;
    RawShape(name);
    RawKept(Lower(Trim(name)));
  }

  lemma SubnameStable(name: string)
    requires NormalizeProfileInput(name, NftfactorySubname).Some?
    ensures Stable(NormalizeProfileInput(name, NftfactorySubname).value, NftfactorySubname)
  {
    hide Trim;
    RawShape(name);
    var raw := Lower(Trim(name));
    RawKept(raw);
    var slug := NormalizeSubname(raw);
    var fullName := slug + SUFFIX;
    assert forall i | 0 <= i < |slug| :: slug[i] == raw[i];
    assert LowerText(SUFFIX);
    assert forall i | |slug| <= i < |fullName| :: fullName[i] == SUFFIX[i - |slug|];
    RawKept(fullName);
    assert fullName[|fullName| - |SUFFIX|..] == SUFFIX && fullName[..|fullName| - |SUFFIX|] == slug;
  }

  /** Wallet and subname names always read back; the others exactly when the full name neither
      starts nor ends with white space. */
  lemma StableIff(name: string, source: Source)
    requires NormalizeProfileInput(name, source).Some?
    ensures var n := NormalizeProfileInput(name, source).value;
      Stable(n, source) <==> source.Wallet? || source.NftfactorySubname? || Trim(n.fullName) == n.fullName
  {
    hide LowerChar, Trim, NormalizeSubname, Clean, NonEmpty, JoinReversed;
    if source.Wallet? {
      WalletStable(name);
    } else if source.NftfactorySubname? {
      SubnameStable(name);
    } else {
      RawShape(name);
      var raw := Lower(Trim(name));
      CleanShape(raw);
      var fullName := Clean(raw);
      TrimShape(fullName);
      RawShape(fullName);
      CleanShape(Lower(Trim(fullName)));
      CleanKept(fullName);
      LowerTextKept(fullName);
    }
  }

  lemma FullNameNonEmpty(name: string, source: Source)
    ensures NormalizeProfileInput(name, source).Some? ==> NormalizeProfileInput(name, source).value.fullName != ""
  {
    hide Trim, Clean, NormalizeSubname, NonEmpty, JoinReversed;
  }
}
