/** The avatar image (src/components/Avatar.jsx): size classes, initials and
    the choice between the given picture and the placeholder. */
module Avatar {
  import opened Js

  const PlaceholderUrl := "https://upload.wikimedia.org/wikipedia/commons/7/7c/Profile_avatar_placeholder_large.png"
  const MdClasses := "w-10 h-10 text-sm"

  /** `sizeClasses[size] || sizeClasses.md`. */
  function SizeClasses(size: string): (r: string)
    ensures size == "sm" ==> r == "w-8 h-8 text-xs"
    ensures size == "lg" ==> r == "w-16 h-16 text-xl"
    ensures size == "xl" ==> r == "w-24 h-24 text-3xl"
    ensures size != "sm" && size != "lg" && size != "xl" ==> r == MdClasses
  {
    if size == "sm" then "w-8 h-8 text-xs"
    else if size == "md" then MdClasses
    else if size == "lg" then "w-16 h-16 text-xl"
    else if size == "xl" then "w-24 h-24 text-3xl"
    else MdClasses
  }

  /** The image `src`: `(!src || error) ? placeholderUrl : src`, where
      `error` is set once the picture failed to load. */
  function ImageSource(src: Option<string>, error: bool): (r: string)
    ensures !Truthy(src) || error ==> r == PlaceholderUrl
    ensures Truthy(src) && !error ==> r == src.value
  {
    if !Truthy(src) || error then PlaceholderUrl else src.value
  }

  /** `n => n[0]`, joined with `''`: the first character, or nothing for an
      empty part (`undefined` joins as the empty string). */
  function Head(part: string): (r: string)
    ensures |r| <= 1
  {
    if part == [] then "" else [part[0]]
  }

  /** `.map(n => n[0]).slice(0, 2).join('')`. */
  function FirstTwoHeads(parts: seq<string>): string
    requires |parts| >= 1
  {
    Head(parts[0]) + (if |parts| >= 2 then Head(parts[1]) else "")
  }

  /** `getInitials(name)`. */
  function GetInitials(name: Option<string>): (r: string)
    ensures !Truthy(name) ==> r == "?"
  {
    if !Truthy(name) then "?" else UpperCase(FirstTwoHeads(Split(name.value, ' ')))
  }

  /** The initials read straight off the name: its first character unless it
      is a space, then the character after the first space unless that is a
      space too or the end; both upper-cased. */
  function InitialsByPosition(s: string): (r: string)
    ensures |r| <= 2
  {
    var i := IndexOf(s, ' ');
    UpperCase((if 0 < i then [s[0]] else []) + (if i + 1 < |s| && s[i + 1] != ' ' then [s[i + 1]] else []))
  }

  /** For a non-empty name, `getInitials` keeps only the first characters of
      the first two space-separated parts, empty parts giving nothing; so the
      result has at most two characters. */
  lemma InitialsOfFirstTwoParts(s: string)
    requires s != ""
    ensures GetInitials(Some(s)) == InitialsByPosition(s)
    ensures |GetInitials(Some(s))| <= 2
  {
    var i := IndexOf(s, ' ');
    var parts := Split(s, ' ');
    SplitAtFirst(s, ' ');
    if i < |s| {
      var rest := s[i + 1..];
      SplitAtFirst(rest, ' ');
      assert parts[1] == Split(rest, ' ')[0];
      assert rest != [] ==> rest[0] == s[i + 1];
    }
  }

  /** A name that starts with two spaces has empty initials, not "?". */
  lemma LeadingSpacesGiveNoInitials(s: string)
    requires |s| >= 2 && s[0] == ' ' && s[1] == ' '
    ensures GetInitials(Some(s)) == ""
  {
    InitialsOfFirstTwoParts(s);
  }
}
