/** The pure helpers of the content script: the tag stripper and the speed table. */
module ContentHelpers {
  import opened Wrappers
  import opened JsStrings

  /**
   * `s.replace(/<[^>]*>?/gm, "")`, outside a tag: each `<` starts a tag that
   * runs up to and including the next `>`, or to the end of the string.
   */
  function StripTags(s: string): string
    decreases |s|
  {
    if s == [] then []
    else if s[0] == '<' then SkipTag(s[1..])
    else [s[0]] + StripTags(s[1..])
  }

  /** Inside a tag: drop everything up to and including the next `>`. */
  function SkipTag(s: string): string
    decreases |s|
  {
    if s == [] then []
    else if s[0] == '>' then StripTags(s[1..])
    else SkipTag(s[1..])
  }

  /** `removeTagsFromString`: strip the tags, then trim. */
  function RemoveTagsFromString(s: string): string {
    Trim(StripTags(s))
  }

  /** Neither stripping state ever emits a `<`. */
  lemma {:induction false} StripNoOpen(s: string)
    ensures '<' !in StripTags(s) && '<' !in SkipTag(s)
  {
    if s != [] {
      StripNoOpen(s[1..]);
    }
  }

  /** A string without `<` has no tag to strip. */
  lemma {:induction false} StripIdentity(s: string)
    requires '<' !in s
    ensures StripTags(s) == s
  {
    if s != [] {
      assert s[0] != '<';
      StripIdentity(s[1..]);
      assert s == [s[0]] + s[1..];
    }
  }

  /** The output of `removeTagsFromString` contains no `<`. */
  lemma RemoveTagsNoOpen(s: string)
    ensures '<' !in RemoveTagsFromString(s)
  {
    StripNoOpen(s);
  }

  /** `removeTagsFromString` is idempotent. */
  lemma RemoveTagsIdempotent(s: string)
    ensures RemoveTagsFromString(RemoveTagsFromString(s)) == RemoveTagsFromString(s)
  {
    var r := RemoveTagsFromString(s);
    RemoveTagsNoOpen(s);
    StripIdentity(r);
    TrimIdempotent(StripTags(s));
  }

  /** The delay table of the `startAutoSolve` handler, slowest level first. */
  const Delays: seq<int> := [3000, 2000, 1000, 500, 200]

  /** `delays[speed - 1] || 1000`: the milliseconds between questions for a speed level. */
  function DelayFor(level: int): (ms: int)
    ensures ms in Delays
    ensures !(1 <= level <= 5) ==> ms == 1000
  {
    if 1 <= level <= 5 then Delays[level - 1] else 1000
  }

  /** A higher speed level always means a strictly shorter delay. */
  lemma FasterLevelShorterDelay(a: int, b: int)
    requires 1 <= a < b <= 5
    ensures DelayFor(b) < DelayFor(a)
  {
  }

  /** The delay after a `startAutoSolve` request: an absent speed keeps the current delay. */
  function DelayAfter(current: int, speed: Option<int>): (ms: int)
    ensures speed.None? ==> ms == current
    ensures speed.Some? ==> ms in Delays
  {
    match speed
    case None => current
    case Some(level) => DelayFor(level)
  }
}
