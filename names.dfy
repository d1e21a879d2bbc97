/** Name validation of the provider, for a POSIX host (`path.sep` is `/`).
    A name is checked against two regular expressions: CONTAINS_DOT_DOT_PATHS,
    `(^|[\\/])\.\.([\\/]|$)`, and NAME_PATTERN, which on POSIX is `[^//]+`. */
module Names {
  import opened Outcomes

  /** The separator class `[\\/]` of CONTAINS_DOT_DOT_PATHS. */
  predicate IsSeparator(c: char) {
    c == '/' || c == '\\'
  }

  /** CONTAINS_DOT_DOT_PATHS matches with its `..` at position `i`: the
      two dots are preceded by the start of the string or a separator and
      followed by a separator or the end of the string. */
  predicate DotDotAt(s: string, i: int) {
    0 <= i && i + 2 <= |s| && s[i] == '.' && s[i + 1] == '.'
    && (i == 0 || IsSeparator(s[i - 1]))
    && (i + 2 == |s| || IsSeparator(s[i + 2]))
  }

  /** The search `RegExp.prototype.test` performs: try every position from
      `from` on, and succeed at the first one where the pattern matches. */
  function DotDotSearch(s: string, from: nat): (found: bool)
    ensures found <==> exists i :: from <= i && DotDotAt(s, i)
    decreases |s| - from
  {
    if from + 2 > |s| then false
    else DotDotAt(s, from) || DotDotSearch(s, from + 1)
  }

  /** `CONTAINS_DOT_DOT_PATHS.test(s)`. */
  function ContainsDotDotPath(s: string): bool {
    DotDotSearch(s, 0)
  }

  /** The match object of `RegExp.prototype.exec`: where the match starts
      and how long it is. */
  datatype Match = Match(index: nat, length: nat)

  /** First position at or after `i` that holds a character other than `/`. */
  function SkipSlashes(s: string, i: nat): (j: nat)
    requires i <= |s|
    ensures i <= j <= |s|
    ensures forall k :: i <= k < j ==> s[k] == '/'
    ensures j < |s| ==> s[j] != '/'
    decreases |s| - i
  {
    if i == |s| || s[i] != '/' then i else SkipSlashes(s, i + 1)
  }

  /** End of the greedy run of characters other than `/` starting at `i`. */
  function SegmentEnd(s: string, i: nat): (j: nat)
    requires i <= |s|
    ensures i <= j <= |s|
    ensures forall k :: i <= k < j ==> s[k] != '/'
    ensures j < |s| ==> s[j] == '/'
    decreases |s| - i
  {
    if i == |s| || s[i] == '/' then i else SegmentEnd(s, i + 1)
  }

  /** `NAME_PATTERN.exec(s)` on POSIX: the leftmost, longest run of
      characters other than `/`, or no match when there is none. */
  function ExecNamePattern(s: string): (m: Option<Match>)
    ensures m.None? <==> forall k :: 0 <= k < |s| ==> s[k] == '/'
    ensures m.Some? ==>
      && 0 < m.value.length
      && m.value.index + m.value.length <= |s|
      && (forall k :: 0 <= k < m.value.index ==> s[k] == '/')
      && (forall k :: m.value.index <= k < m.value.index + m.value.length ==> s[k] != '/')
      && (m.value.index + m.value.length < |s| ==> s[m.value.index + m.value.length] == '/')
  {
    var start := SkipSlashes(s, 0);
    if start == |s| then None
    else Some(Match(start, SegmentEnd(s, start) - start))
  }

  /** `SFTPProvider.validateName`: the dot-dot test first, then the requirement
      that NAME_PATTERN matches the whole name. The two failures carry the two
      different messages of the source. */
  function ValidateName(name: string): (r: Result<()>)
    ensures ContainsDotDotPath(name) ==> r == Err(DotDotName(name))
    ensures r.Err? ==> r.error == DotDotName(name) || r.error == BadName(name)
    ensures r.Ok? ==> |name| > 0 && '/' !in name && !ContainsDotDotPath(name)
  {
    if ContainsDotDotPath(name) then Err(DotDotName(name))
    else
      var m := ExecNamePattern(name);
      if m.Some? && m.value.index == 0 && m.value.length == |name| then Ok(())
      else Err(BadName(name))
  }

  predicate IsValidName(name: string) {
    ValidateName(name).Ok?
  }

  /** NAME_PATTERN covers the whole string exactly when the string is a
      non-empty run of characters other than `/`. */
  lemma WholeNameMatch(s: string)
    ensures (ExecNamePattern(s).Some? && ExecNamePattern(s).value.index == 0
             && ExecNamePattern(s).value.length == |s|)
        <==> (|s| > 0 && '/' !in s)
  {
    var m := ExecNamePattern(s);
    if |s| > 0 && '/' !in s {
      assert s[0] != '/';
      assert m.Some?;
      assert m.value.index == 0;
    }
  }

  /** A name is accepted exactly when it is non-empty, holds no `/`, and has
      no `..` bounded on each side by the start or end or by `/` or `\`. */
  lemma ValidNameCharacterization(name: string)
    ensures IsValidName(name)
        <==> (|name| > 0 && '/' !in name && !exists i :: DotDotAt(name, i))
  {
    WholeNameMatch(name);
  }

  /** Which of the two errors a rejected name gets: the dot-dot error
      whenever a bounded `..` is present, the segment error otherwise. */
  lemma ValidateNameErrors(name: string)
    ensures ValidateName(name) == Err(DotDotName(name)) <==> exists i :: DotDotAt(name, i)
    ensures ValidateName(name) == Err(BadName(name))
        <==> (!(exists i :: DotDotAt(name, i)) && (|name| == 0 || '/' in name))
  {
    WholeNameMatch(name);
  }

  /** Names the source's own regular expressions reject, with their errors. */
  lemma ValidateNameRejects()
    ensures ValidateName("") == Err(BadName(""))
    ensures ValidateName("..") == Err(DotDotName(".."))
    ensures ValidateName("a/b") == Err(BadName("a/b"))
    ensures ValidateName("x\\..") == Err(DotDotName("x\\.."))
    ensures ValidateName("../etc") == Err(DotDotName("../etc"))
  {
    ValidateNameErrors("");
    assert DotDotAt("..", 0);
    assert DotDotAt("x\\..", 2);
    assert DotDotAt("../etc", 0);
    assert "a/b"[1] == '/';
    ValidateNameErrors("a/b");
  }

  /** Names with dots that are not a bounded `..`, which are accepted. */
  lemma ValidateNameAccepts()
    ensures IsValidName("a..b")
    ensures IsValidName("...")
    ensures IsValidName(".x")
  {
    ValidNameCharacterization("a..b");
    ValidNameCharacterization("...");
    ValidNameCharacterization(".x");
  }
}
