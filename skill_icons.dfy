/** `renderSkillIcon`: resolving the icon of a skill card, with a table of
    branded logos that overrides the card's own glyph. */
module SkillIcons {

  const ImagePrefix: string := "img:"

  datatype Variant = Default | Large

  /** What is rendered: an image with a source URL, or an icon-font glyph. */
  datatype IconView =
    | Image(src: string, alt: string, variant: Variant)
    | Glyph(iconClass: string, variant: Variant)

  /** `String.prototype.replace` with a string pattern: only the first
      occurrence of `pat` is replaced. */
  function ReplaceFirst(s: string, pat: string, rep: string): (r: string)
    ensures pat <= s ==> r == rep + s[|pat|..]
  {
    if pat <= s then rep + s[|pat|..]
    else if s == [] then s
    else [s[0]] + ReplaceFirst(s[1..], pat, rep)
  }

  /** A string in which `pat` never occurs is left as it is by `ReplaceFirst`. */
  lemma {:induction false} ReplaceFirstAbsent(s: string, pat: string, rep: string)
    requires forall i :: 0 <= i <= |s| ==> !(pat <= s[i..])
    ensures ReplaceFirst(s, pat, rep) == s
  {
    assert s[0..] == s;
    if s != [] {
      forall i | 0 <= i <= |s[1..]|
        ensures !(pat <= s[1..][i..])
      {
        assert s[1..][i..] == s[i + 1..];
      }
      ReplaceFirstAbsent(s[1..], pat, rep);
    }
  }

  /** `replace` with a string pattern acts at the first occurrence: for the
      least `i` at which `pat` occurs, the result is `s[..i] + rep + s[i + |pat|..]`. */
  lemma {:induction false} ReplaceFirstAtFirstOccurrence(s: string, pat: string, rep: string, i: nat)
    requires i <= |s| && pat <= s[i..]
    requires forall j :: 0 <= j < i ==> !(pat <= s[j..])
    ensures i + |pat| <= |s|
    ensures ReplaceFirst(s, pat, rep) == s[..i] + rep + s[i + |pat|..]
    decreases i
  {
    if i == 0 {
      assert s[0..] == s;
    } else {
      assert s[0..] == s;
      assert !(pat <= s[0..]);
      forall j | 0 <= j < i - 1
        ensures !(pat <= s[1..][j..])
      {
        assert s[1..][j..] == s[j + 1..];
      }
      assert s[1..][i - 1..] == s[i..];
      ReplaceFirstAtFirstOccurrence(s[1..], pat, rep, i - 1);
      assert [s[0]] + s[1..][..i - 1] == s[..i];
      assert s[1..][i - 1 + |pat|..] == s[i + |pat|..];
    }
  }

  /** `brandedSkillIcons[label] ?? icon`, with the label passed as `caption` */
  function ResolveIcon(branded: map<string, string>, icon: string, caption: string): (r: string)
    ensures caption in branded ==> r == branded[caption]
    ensures caption !in branded ==> r == icon
  {
    if caption in branded then branded[caption] else icon
  }

  function RenderSkillIcon(branded: map<string, string>, icon: string, caption: string, variant: Variant): (v: IconView)
    ensures v.Image? <==> ImagePrefix <= ResolveIcon(branded, icon, caption)
    ensures v.Image? ==> ImagePrefix + v.src == ResolveIcon(branded, icon, caption)
    ensures v.Image? ==> v.alt == caption + " icon"
    ensures v.Glyph? ==> v.iconClass == ResolveIcon(branded, icon, caption)
    ensures v.variant == variant
  {
    var resolved := ResolveIcon(branded, icon, caption);
    if ImagePrefix <= resolved then Image(ReplaceFirst(resolved, ImagePrefix, ""), caption + " icon", variant)
    else Glyph(resolved, variant)
  }

  /** A branded entry wins over the card's own icon: the card's icon does not
      matter once the label is in the table. */
  lemma BrandedOverrides(branded: map<string, string>, icon1: string, icon2: string, caption: string, variant: Variant)
    requires caption in branded
    ensures RenderSkillIcon(branded, icon1, caption, variant) == RenderSkillIcon(branded, icon2, caption, variant)
  {
  }

  /** An `img:` value renders an image whose source is that value without the
      prefix, and any value without it renders as a glyph class unchanged. */
  lemma ImageSourceDropsPrefix(branded: map<string, string>, icon: string, caption: string, variant: Variant)
    requires caption !in branded
    ensures ImagePrefix <= icon ==> RenderSkillIcon(branded, icon, caption, variant).src == icon[|ImagePrefix|..]
    ensures !(ImagePrefix <= icon) ==> RenderSkillIcon(branded, icon, caption, variant) == Glyph(icon, variant)
  {
  }
}
