/**
 * The linking-annotation protocol: the only persistent record that a neuron
 * in the target project was produced from a neuron in the source project.
 *
 *   LINKED NEURON - [<relation> ]skeleton id <skid> in project id <pid> on server <url>
 *
 * The pusher finds the annotations that mention a source skeleton and
 * project, escapes their parentheses, and dispatches on the relation keys
 * each of them contains.
 */
module Linking {
  import opened Wrappers
  import opened Text
  import opened Escapes

  const LinkedTag: string := "LINKED NEURON"
  const UpdatedTag: string := "UPDATED FROM LINKED NEURON"
  const SkeletonIdLabel: string := "skeleton id "
  const ProjectIdLabel: string := "project id "

  /** The part of the template before `skeleton id`: the relation, when there is one, is followed by a space. */
  function LinkHead(relation: string): string {
    if relation == "" then "LINKED NEURON - " else "LINKED NEURON - " + relation + " "
  }

  /** `skeleton id <skid> `, trailing space included: also the pattern the pusher looks for. */
  function SkidPattern(skid: nat): string {
    SkeletonIdLabel + NatToString(skid) + " "
  }

  /** `project id <pid> `, trailing space included. */
  function PidPattern(pid: nat): string {
    ProjectIdLabel + NatToString(pid) + " "
  }

  /** The text after the skeleton id and its space: `in project id <pid> on server <server>`. */
  function LinkRest(pid: nat, server: string): string {
    "in " + (PidPattern(pid) + ("on server " + server))
  }

  /** The linking annotation that `upload_or_update_neurons` builds for a source neuron. */
  function LinkingAnnotation(relation: string, skid: nat, pid: nat, server: string): string {
    LinkHead(relation) + SkidPattern(skid) + LinkRest(pid, server)
  }

  /** The filter of the pusher: the annotation names this source skeleton and this source project. */
  predicate MentionsSource(annot: string, skid: nat, pid: nat) {
    Contains(annot, SkidPattern(skid)) && Contains(annot, PidPattern(pid))
  }

  /** The relation keys of the pusher, in dictionary order. The parentheses of the volume key carry backslashes. */
  const CopyKey: string := "copy of"
  const TranslationKey: string := "translation of"
  const ElasticKey: string := "elastic transformation of"
  const ElasticFlippedKey: string := "elastic transformation and flipped of"
  const FeleKey: string := "pruned \\(first entry, last exit\\) by vol 109 of"
  const RadiusKey: string := "radius pruned of"

  const RelationKeys: seq<string> := [CopyKey, TranslationKey, ElasticKey, ElasticFlippedKey, FeleKey, RadiusKey]

  /** The relations the transform functions pass to the uploader. */
  const CopyRelation: string := "copy of"
  const TranslationRelation: string := "translation of"
  const ElasticRelation: string := "elastic transformation of"
  const ElasticFlippedRelation: string := "elastic transformation and flipped of"
  const RadiusRelation: string := "radius pruned of"

  /** `pruned (<mode>) by vol <volumeId> of`, the relation of volume pruning. */
  function VolumeRelation(mode: string, volumeId: nat): string {
    "pruned " + "(" + mode + ")" + VolumeSuffix(volumeId)
  }

  function VolumeSuffix(volumeId: nat): string {
    " by vol " + NatToString(volumeId) + " of"
  }

  function FeleRelation(volumeId: nat): string {
    VolumeRelation(FeleMode, volumeId)
  }

  function StrictRelation(volumeId: nat): string {
    VolumeRelation("strict", volumeId)
  }

  /** The relation keys contained in an (escaped) annotation, in dictionary order: every one of them fires. */
  function FiredKeys(annot: string, keys: seq<string>): (r: seq<string>)
    ensures forall k :: k in r <==> k in keys && Contains(annot, k)
    ensures |r| <= |keys|
  {
    if keys == [] then []
    else (if Contains(annot, keys[0]) then [keys[0]] else []) + FiredKeys(annot, keys[1..])
  }

  /** An annotation that contains exactly one of the keys fires that key alone. */
  lemma FiresOnly(annot: string, keys: seq<string>, own: string)
    requires own in keys && Contains(annot, own)
    requires forall k :: k in keys && k != own ==> !Contains(annot, k)
    ensures forall k :: k in FiredKeys(annot, keys) <==> k == own
  {
  }

  /** An annotation that can contain only one of the keys fires that key exactly when it contains it. */
  lemma FiresAtMost(annot: string, keys: seq<string>, own: string)
    requires own in keys
    requires forall k :: k in keys && k != own ==> !Contains(annot, k)
    ensures forall k :: k in FiredKeys(annot, keys) <==> k == own && Contains(annot, own)
  {
  }

  /** An annotation that contains none of the keys fires nothing. */
  lemma FiresNone(annot: string, keys: seq<string>)
    requires forall k :: k in keys ==> !Contains(annot, k)
    ensures FiredKeys(annot, keys) == []
  {
  }

  /** `annot.split('skeleton id ')[1].split(' ')[0]`; `None` when the split raises IndexError. */
  function ExtractSkid(annot: string): Option<string> {
    match SecondField(annot, SkeletonIdLabel)
    case Some(field) => Some(Before(field, " "))
    case None => None
  }

  // ---- Where the labels occur in a linking annotation ----

  /** Text that spells out neither label, `skeleton id ` nor `project id `. */
  predicate LabelFree(s: string) {
    !Contains(s, SkeletonIdLabel) && !Contains(s, ProjectIdLabel)
  }

  /** The fixed middle of the template: `skeleton id <skid> in project id <pid> on server `. */
  function LinkMiddle(skid: nat, pid: nat): string {
    SkidPattern(skid) + "in " + PidPattern(pid) + "on server "
  }

  lemma LinkingAnnotationParts(relation: string, skid: nat, pid: nat, server: string)
    ensures LinkingAnnotation(relation, skid, pid, server) == LinkHead(relation) + LinkMiddle(skid, pid) + server
  {
    var sp, pp := SkidPattern(skid), PidPattern(pid);
    assert sp + LinkRest(pid, server) == sp + "in " + pp + "on server " + server;
  }

  lemma DigitsLack(n: nat)
    ensures var d := NatToString(n);
            'k' !in d && 'j' !in d && ' ' !in d && 's' !in d && 'p' !in d && 'f' !in d && '(' !in d && ')' !in d
  {
    var d := NatToString(n);
    forall i | 0 <= i < |d|
      ensures d[i] != 'k' && d[i] != 'j' && d[i] != ' ' && d[i] != 's' && d[i] != 'p' && d[i] != 'f' && d[i] != '(' && d[i] != ')'
    {
      assert IsDigit(d[i]);
    }
  }

  /** The middle up to `project id`'s 'j', and after it. */
  function MiddleBeforeJ(skid: nat): string {
    SkidPattern(skid) + "in pro"
  }

  function MiddleAfterJ(pid: nat): string {
    "ect id " + NatToString(pid) + " " + "on server "
  }

  lemma MiddleSplitAtJ(skid: nat, pid: nat)
    ensures LinkMiddle(skid, pid) == MiddleBeforeJ(skid) + "j" + MiddleAfterJ(pid)
    ensures |MiddleBeforeJ(skid)| == |SkidPattern(skid)| + 6
  {
  }

  lemma MiddleBeforeJLacks(skid: nat)
    ensures var x := MiddleBeforeJ(skid);
            && 'f' !in x && '(' !in x && ')' !in x && 'j' !in x
            && |x| > 2 && x[..2] == "sk" && 'k' !in x[2..]
  {
    DigitsLack(skid);
    var x := MiddleBeforeJ(skid);
    assert x[2..] == "eleton id " + NatToString(skid) + " " + "in pro";
  }

  lemma MiddleAfterJLacks(pid: nat)
    ensures var a := MiddleAfterJ(pid);
            && 'f' !in a && '(' !in a && ')' !in a && 'p' !in a && 'j' !in a && 'k' !in a
            && |a| >= 4 && a[|a| - 4..] == "ver "
  {
    DigitsLack(pid);
    var a := MiddleAfterJ(pid);
    assert a[|a| - 4..] == "on server "[6..];
  }

  /** In the middle, 'k' occurs only in `skeleton id` and 'j' only in `project id`; it starts with 's' and ends with `er `. */
  lemma MiddleAnchors(skid: nat, pid: nat)
    ensures var m := LinkMiddle(skid, pid);
            && |m| > 3 && m[0] == 's' && m[1] == 'k' && m[|m| - 1] == ' ' && m[|m| - 2] == 'r' && m[|m| - 3] == 'e'
            && OnlyAt(m, 'k', 1) && OnlyAt(m, 'j', |SkidPattern(skid)| + 6)
  {
    MiddleKAnchor(skid, pid);
    MiddleJAnchor(skid, pid);
  }

  lemma MiddleKAnchor(skid: nat, pid: nat)
    ensures var m := LinkMiddle(skid, pid);
            && |m| > 3 && m[0] == 's' && m[1] == 'k' && OnlyAt(m, 'k', 1)
  {
    MiddleSplitAtJ(skid, pid);
    MiddleBeforeJLacks(skid);
    MiddleAfterJLacks(pid);
    KAnchorAround(LinkMiddle(skid, pid), MiddleBeforeJ(skid), MiddleAfterJ(pid));
  }

  /** A text `sk…j…` whose only 'k' is its second character. */
  lemma KAnchorAround(m: string, x: string, a: string)
    requires m == x + "j" + a && |x| > 2 && x[..2] == "sk" && 'k' !in x[2..] && 'k' !in a && |a| >= 4
    ensures |m| > 3 && m[0] == 's' && m[1] == 'k' && OnlyAt(m, 'k', 1)
  {
    var rest := x[2..] + "j" + a;
    assert m == "s" + ['k'] + rest by {
      assert x == x[..2] + x[2..];
    }
    OnlyAtAround("s", 'k', rest);
  }

  lemma MiddleJAnchor(skid: nat, pid: nat)
    ensures var m := LinkMiddle(skid, pid);
            && |m| > 3 && m[|m| - 1] == ' ' && m[|m| - 2] == 'r' && m[|m| - 3] == 'e'
            && OnlyAt(m, 'j', |SkidPattern(skid)| + 6)
  {
    var m, x, a := LinkMiddle(skid, pid), MiddleBeforeJ(skid), MiddleAfterJ(pid);
    MiddleSplitAtJ(skid, pid);
    MiddleBeforeJLacks(skid);
    MiddleAfterJLacks(pid);
    OnlyAtAround(x, 'j', a);
    assert m[|m| - 3..] == a[|a| - 3..];
  }

  /** The template's head holds a label only if the relation, with the space after it, does. */
  lemma HeadLacks(relation: string, pat: string)
    requires |pat| > 0 && pat[0] !in "LINKED NEURON - " && !Contains(relation + " ", pat)
    ensures !Contains(LinkHead(relation), pat)
  {
    if relation == "" {
      NotContainsMissing(LinkHead(relation), pat, pat[0]);
    } else {
      assert LinkHead(relation) == "LINKED NEURON - " + (relation + " ");
      NotContainsAfterPrefix("LINKED NEURON - ", relation + " ", pat);
    }
  }

  /** `skeleton id ` occurs only where the template wrote it, unless the relation or the server spells it out. */
  lemma SkidLabelOnlyAt(relation: string, skid: nat, pid: nat, server: string, q: nat)
    requires !Contains(relation + " ", SkeletonIdLabel) && !Contains(server, SkeletonIdLabel)
    requires OccursAt(LinkingAnnotation(relation, skid, pid, server), SkeletonIdLabel, q)
    ensures q == |LinkHead(relation)|
  {
    var h, m, pat := LinkHead(relation), LinkMiddle(skid, pid), SkeletonIdLabel;
    assert LinkingAnnotation(relation, skid, pid, server) == h + m + server by {
      LinkingAnnotationParts(relation, skid, pid, server);
    }
    assert !Contains(h, pat) by {
      HeadLacks(relation, pat);
    }
    assert |m| > 3 && m[0] !in pat[1..] && OnlyAt(m, 'k', 1) && m[|m| - 1] != pat[0] by {
      MiddleAnchors(skid, pid);
      assert pat[1..] == "keleton id ";
    }
    OnlyOccurrence(h, m, server, pat, 'k', 0, 1, q);
  }

  /** What places `project id ` within the middle: its 'j' and its leading 'p'. */
  lemma MiddleProjectLabel(skid: nat, pid: nat)
    ensures var m, k0 := LinkMiddle(skid, pid), |SkidPattern(skid)| + 3;
            && ProjectIdLabel[3] == 'j' && k0 + 3 < |m| && m[0] !in ProjectIdLabel[1..]
            && OnlyAt(m, 'j', k0 + 3)
            && forall i :: |m| - 3 <= i < |m| ==> m[i] != ProjectIdLabel[0]
  {
    MiddleAnchors(skid, pid);
    assert ProjectIdLabel[1..] == "roject id ";
  }

  /** Likewise `project id `. */
  lemma PidLabelOnlyAt(relation: string, skid: nat, pid: nat, server: string, q: nat)
    requires !Contains(relation + " ", ProjectIdLabel) && !Contains(server, ProjectIdLabel)
    requires OccursAt(LinkingAnnotation(relation, skid, pid, server), ProjectIdLabel, q)
    ensures q == |LinkHead(relation)| + |SkidPattern(skid)| + 3
  {
    LinkingAnnotationParts(relation, skid, pid, server);
    HeadLacks(relation, ProjectIdLabel);
    MiddleProjectLabel(skid, pid);
    OnlyOccurrence(LinkHead(relation), LinkMiddle(skid, pid), server, ProjectIdLabel, 'j', |SkidPattern(skid)| + 3, 3, q);
  }

  lemma DropConcat3(x: string, y: string, z: string)
    ensures (x + y + z)[|x|..] == y + z
    ensures (x + y + z)[..|x|] == x
  {
  }

  /** If `lit + d1 + " "` is a prefix of `lit + d2 + " " + rest` for digit strings d1, d2, then d1 == d2. */
  lemma LabelledNumberPrefix(lit: string, d1: string, d2: string, rest: string)
    requires forall i :: 0 <= i < |d1| ==> IsDigit(d1[i])
    requires forall i :: 0 <= i < |d2| ==> IsDigit(d2[i])
    requires lit + d1 + " " <= lit + d2 + " " + rest
    ensures d1 == d2
  {
    var p, b := lit + d1 + " ", lit + d2 + " " + rest;
    var more := b[|p|..];
    assert b == p + more;
    assert b[|lit|..] == d2 + " " + rest;
    assert b[|lit|..] == d1 + " " + more;
    DigitsThenSpace(d1, d2, more, rest);
  }

  /**
   * A labelled number `lit + d + " "` found in a text where the label
   * occurs only at `pos` is the one at `pos`.
   */
  lemma UniqueLabelledNumber(a: string, pos: nat, lit: string, d: string, rest: string, d': string)
    requires forall q :: OccursAt(a, lit, q) ==> q == pos
    requires pos <= |a| && a[pos..] == lit + d + " " + rest
    requires forall i :: 0 <= i < |d| ==> IsDigit(d[i])
    requires forall i :: 0 <= i < |d'| ==> IsDigit(d'[i])
    ensures Contains(a, lit + d' + " ") <==> d' == d
  {
    var pat := lit + d' + " ";
    if Contains(a, pat) {
      ContainsIff(a, pat);
      var p: nat :| OccursAt(a, pat, p);
      assert OccursAt(a, lit, p) by {
        assert a[p..p + |lit|] == a[p..p + |pat|][..|lit|];
      }
      assert a[pos..][..|pat|] == pat;
      LabelledNumberPrefix(lit, d', d, rest);
    }
    if d' == d {
      assert a[pos..pos + |pat|] == a[pos..][..|pat|];
      OccursContains(a, pat, pos);
    }
  }

  /**
   * The only place a `skeleton id <n> ` pattern can match a linking
   * annotation is its own skeleton id, as long as neither the relation nor
   * the server spells out `skeleton id `.
   */
  lemma SkidPatternIff(relation: string, skid: nat, pid: nat, server: string, skid': nat)
    requires !Contains(relation + " ", SkeletonIdLabel) && !Contains(server, SkeletonIdLabel)
    ensures Contains(LinkingAnnotation(relation, skid, pid, server), SkidPattern(skid')) <==> skid' == skid
  {
    var h, sp, rest := LinkHead(relation), SkidPattern(skid), LinkRest(pid, server);
    var a := LinkingAnnotation(relation, skid, pid, server);
    forall q | OccursAt(a, SkeletonIdLabel, q) ensures q == |h| {
      SkidLabelOnlyAt(relation, skid, pid, server, q);
    }
    DropConcat3(h, sp, rest);
    UniqueLabelledNumber(a, |h|, SkeletonIdLabel, NatToString(skid), rest, NatToString(skid'));
    if NatToString(skid') == NatToString(skid) {
      NatToStringInjective(skid', skid);
    }
  }

  /** Likewise `project id <n> ` matches only the annotation's own project id. */
  lemma PidPatternIff(relation: string, skid: nat, pid: nat, server: string, pid': nat)
    requires !Contains(relation + " ", ProjectIdLabel) && !Contains(server, ProjectIdLabel)
    ensures Contains(LinkingAnnotation(relation, skid, pid, server), PidPattern(pid')) <==> pid' == pid
  {
    var h, sp, rest := LinkHead(relation), SkidPattern(skid), LinkRest(pid, server);
    var pp, srv := PidPattern(pid), "on server " + server;
    var a := LinkingAnnotation(relation, skid, pid, server);
    var pj := |h| + |sp| + 3;
    forall q | OccursAt(a, ProjectIdLabel, q) ensures q == pj {
      PidLabelOnlyAt(relation, skid, pid, server, q);
    }
    assert a[pj..] == pp + srv by {
      DropConcat3(h, sp, rest);
      assert a[|h| + |sp|..] == rest;
      assert rest[3..] == pp + srv;
    }
    UniqueLabelledNumber(a, pj, ProjectIdLabel, NatToString(pid), srv, NatToString(pid'));
    if NatToString(pid') == NatToString(pid) {
      NatToStringInjective(pid', pid);
    }
  }

  /** Every linking annotation names its own source skeleton and project. */
  lemma LinkingAnnotationMentionsSource(relation: string, skid: nat, pid: nat, server: string)
    ensures MentionsSource(LinkingAnnotation(relation, skid, pid, server), skid, pid)
  {
    var h, sp, pp := LinkHead(relation), SkidPattern(skid), PidPattern(pid);
    var a := LinkingAnnotation(relation, skid, pid, server);
    ContainsSelf(sp);
    ContainsInfix(h, sp, LinkRest(pid, server), sp);
    ContainsSelf(pp);
    assert a == (h + sp + "in ") + pp + ("on server " + server);
    ContainsInfix(h + sp + "in ", pp, "on server " + server, pp);
  }

  /**
   * The pusher's filter recognises a linking annotation exactly by its own
   * source skeleton and project: skid 4 never picks up the annotation of
   * skid 42, nor a project id the annotation of another project.
   */
  lemma MentionsSourceIff(relation: string, skid: nat, pid: nat, server: string, skid': nat, pid': nat)
    requires LabelFree(relation + " ") && LabelFree(server)
    ensures MentionsSource(LinkingAnnotation(relation, skid, pid, server), skid', pid') <==> skid' == skid && pid' == pid
  {
    SkidPatternIff(relation, skid, pid, server, skid');
    PidPatternIff(relation, skid, pid, server, pid');
  }

  /** The first `skeleton id ` of a linking annotation is the one right after its head, whatever the server holds. */
  lemma SkidLabelFirstAt(relation: string, skid: nat, pid: nat, server: string)
    requires !Contains(relation + " ", SkeletonIdLabel)
    ensures IndexOf(LinkingAnnotation(relation, skid, pid, server), SkeletonIdLabel) == Some(|LinkHead(relation)|)
  {
    var h, pat := LinkHead(relation), SkeletonIdLabel;
    var t := SkidPattern(skid) + LinkRest(pid, server);
    HeadLacks(relation, pat);
    assert LinkingAnnotation(relation, skid, pid, server) == h + t;
    assert pat <= t && t[0] !in pat[1..] by {
      assert t[..|pat|] == pat;
      assert pat[1..] == "keleton id ";
    }
    FirstOccurrenceAt(h, t, pat);
  }

  /**
   * Reading the skeleton id back: on an annotation built by the linking
   * template, the text between the first `skeleton id ` and the next space
   * is the decimal skeleton id, whatever the server holds.
   */
  lemma ExtractSkidRoundTrip(relation: string, skid: nat, pid: nat, server: string)
    requires !Contains(relation + " ", SkeletonIdLabel)
    ensures ExtractSkid(LinkingAnnotation(relation, skid, pid, server)) == Some(NatToString(skid))
  {
    var h, pat, d, rest := LinkHead(relation), SkeletonIdLabel, NatToString(skid), LinkRest(pid, server);
    var a := LinkingAnnotation(relation, skid, pid, server);
    SkidLabelFirstAt(relation, skid, pid, server);
    assert a[|h| + |pat|..] == d + " " + rest by {
      assert a == (h + pat) + (d + " ") + rest;
      DropConcat3(h + pat, d + " ", rest);
    }
    assert !IsDigit(pat[0]) && pat[0] != ' ';
    DigitsBeforeSpace(d, rest, pat);
  }

  /** Every linking annotation starts with the tag that the uploader strips and `find_desyncs` selects on. */
  lemma LinkingAnnotationTagged(relation: string, skid: nat, pid: nat, server: string)
    ensures LinkedTag <= LinkingAnnotation(relation, skid, pid, server)
    ensures Contains(LinkingAnnotation(relation, skid, pid, server), LinkedTag)
  {
    var a := LinkingAnnotation(relation, skid, pid, server);
    assert a == LinkedTag + (a[|LinkedTag|..]);
    assert a[0..|LinkedTag|] == LinkedTag;
    OccursContains(a, LinkedTag, 0);
  }

  /** A key that the escaped relation holds also fires on the whole escaped linking annotation. */
  lemma KeyFiresOnLinkingAnnotation(relation: string, key: string, skid: nat, pid: nat, server: string)
    requires relation != "" && Contains(Escaped(relation, ParenChars), key)
    ensures Contains(Escaped(LinkingAnnotation(relation, skid, pid, server), ParenChars), key)
  {
    var pre, tail := "LINKED NEURON - ", " " + SkidPattern(skid) + LinkRest(pid, server);
    assert LinkingAnnotation(relation, skid, pid, server) == pre + relation + tail;
    EscapedConcat(pre + relation, tail, ParenChars);
    EscapedConcat(pre, relation, ParenChars);
    ContainsInfix(Escaped(pre, ParenChars), Escaped(relation, ParenChars), Escaped(tail, ParenChars), key);
  }

  // ---- Relation keys: which of them fire on the escaped relation text ----

  lemma TranslationKeyNotInCopyKey()
    ensures !Contains(CopyKey, TranslationKey)
  {
    NotContainsLonger(CopyKey, TranslationKey);
  }

  lemma ElasticKeyNotInCopyKey()
    ensures !Contains(CopyKey, ElasticKey)
  {
    NotContainsLonger(CopyKey, ElasticKey);
  }

  lemma ElasticFlippedKeyNotInCopyKey()
    ensures !Contains(CopyKey, ElasticFlippedKey)
  {
    NotContainsLonger(CopyKey, ElasticFlippedKey);
  }

  lemma FeleKeyNotInCopyKey()
    ensures !Contains(CopyKey, FeleKey)
  {
    NotContainsLonger(CopyKey, FeleKey);
  }

  lemma RadiusKeyNotInCopyKey()
    ensures !Contains(CopyKey, RadiusKey)
  {
    NotContainsLonger(CopyKey, RadiusKey);
  }

  lemma CopyKeyFires()
    ensures Contains(CopyKey, CopyKey)
    ensures !Contains(CopyKey, TranslationKey) && !Contains(CopyKey, ElasticKey) && !Contains(CopyKey, ElasticFlippedKey)
    ensures !Contains(CopyKey, FeleKey) && !Contains(CopyKey, RadiusKey)
  {
    ContainsSelf(CopyKey);
    TranslationKeyNotInCopyKey();
    ElasticKeyNotInCopyKey();
    ElasticFlippedKeyNotInCopyKey();
    FeleKeyNotInCopyKey();
    RadiusKeyNotInCopyKey();
  }

  lemma CopyKeyNotInTranslationKey()
    ensures !Contains(TranslationKey, CopyKey)
  {
    NotContainsMissing(TranslationKey, CopyKey, 'c');
  }

  lemma ElasticKeyNotInTranslationKey()
    ensures !Contains(TranslationKey, ElasticKey)
  {
    NotContainsLonger(TranslationKey, ElasticKey);
  }

  lemma ElasticFlippedKeyNotInTranslationKey()
    ensures !Contains(TranslationKey, ElasticFlippedKey)
  {
    NotContainsLonger(TranslationKey, ElasticFlippedKey);
  }

  lemma FeleKeyNotInTranslationKey()
    ensures !Contains(TranslationKey, FeleKey)
  {
    NotContainsLonger(TranslationKey, FeleKey);
  }

  lemma RadiusKeyNotInTranslationKey()
    ensures !Contains(TranslationKey, RadiusKey)
  {
    NotContainsLonger(TranslationKey, RadiusKey);
  }

  lemma TranslationKeyFires()
    ensures Contains(TranslationKey, TranslationKey)
    ensures !Contains(TranslationKey, CopyKey) && !Contains(TranslationKey, ElasticKey) && !Contains(TranslationKey, ElasticFlippedKey)
    ensures !Contains(TranslationKey, FeleKey) && !Contains(TranslationKey, RadiusKey)
  {
    ContainsSelf(TranslationKey);
    CopyKeyNotInTranslationKey();
    ElasticKeyNotInTranslationKey();
    ElasticFlippedKeyNotInTranslationKey();
    FeleKeyNotInTranslationKey();
    RadiusKeyNotInTranslationKey();
  }

  lemma CopyKeyNotInElasticKey()
    ensures !Contains(ElasticKey, CopyKey)
  {
    NotContainsMissing(ElasticKey, CopyKey, 'p');
  }

  lemma ElasticKeyAroundL()
    ensures ElasticKey == "e" + "l" + "astic transformation of" + ""
  {
  }

  lemma TranslationKeyNotInElasticKey()
    ensures !Contains(ElasticKey, TranslationKey)
  {
    ElasticKeyAroundL();
    NotContainsAnchored("e", 'l', "astic transformation of", "", TranslationKey, 5, 0);
  }

  lemma ElasticFlippedKeyNotInElasticKey()
    ensures !Contains(ElasticKey, ElasticFlippedKey)
  {
    NotContainsLonger(ElasticKey, ElasticFlippedKey);
  }

  lemma FeleKeyNotInElasticKey()
    ensures !Contains(ElasticKey, FeleKey)
  {
    NotContainsLonger(ElasticKey, FeleKey);
  }

  lemma RadiusKeyNotInElasticKey()
    ensures !Contains(ElasticKey, RadiusKey)
  {
    NotContainsMissing(ElasticKey, RadiusKey, 'd');
  }

  lemma ElasticKeyFires()
    ensures Contains(ElasticKey, ElasticKey)
    ensures !Contains(ElasticKey, CopyKey) && !Contains(ElasticKey, TranslationKey) && !Contains(ElasticKey, ElasticFlippedKey)
    ensures !Contains(ElasticKey, FeleKey) && !Contains(ElasticKey, RadiusKey)
  {
    ContainsSelf(ElasticKey);
    CopyKeyNotInElasticKey();
    TranslationKeyNotInElasticKey();
    ElasticFlippedKeyNotInElasticKey();
    FeleKeyNotInElasticKey();
    RadiusKeyNotInElasticKey();
  }

  lemma CopyKeyNotInElasticFlippedKey()
    ensures !Contains(ElasticFlippedKey, CopyKey)
  {
    NotContainsMissing(ElasticFlippedKey, CopyKey, 'y');
  }

  lemma ElasticFlippedKeyAroundL()
    ensures ElasticFlippedKey == "e" + "l" + "astic transformation and f" + "l" + "ipped of"
  {
  }

  lemma TranslationKeyNotInElasticFlippedKey()
    ensures !Contains(ElasticFlippedKey, TranslationKey)
  {
    ElasticFlippedKeyAroundL();
    NotContainsAnchoredTwice("e", 'l', "astic transformation and f", "ipped of", TranslationKey, 5, 0, 0);
  }

  lemma ElasticFlippedKeyAroundC()
    ensures ElasticFlippedKey == "elasti" + "c" + " transformation and flipped of" + ""
  {
  }

  lemma ElasticKeyNotInElasticFlippedKey()
    ensures !Contains(ElasticFlippedKey, ElasticKey)
  {
    ElasticFlippedKeyAroundC();
    NotContainsAnchored("elasti", 'c', " transformation and flipped of", "", ElasticKey, 6, 23);
  }

  lemma FeleKeyNotInElasticFlippedKey()
    ensures !Contains(ElasticFlippedKey, FeleKey)
  {
    NotContainsLonger(ElasticFlippedKey, FeleKey);
  }

  lemma RadiusKeyNotInElasticFlippedKey()
    ensures !Contains(ElasticFlippedKey, RadiusKey)
  {
    NotContainsMissing(ElasticFlippedKey, RadiusKey, 'u');
  }

  lemma ElasticFlippedKeyFires()
    ensures Contains(ElasticFlippedKey, ElasticFlippedKey)
    ensures !Contains(ElasticFlippedKey, CopyKey) && !Contains(ElasticFlippedKey, TranslationKey) && !Contains(ElasticFlippedKey, ElasticKey)
    ensures !Contains(ElasticFlippedKey, FeleKey) && !Contains(ElasticFlippedKey, RadiusKey)
  {
    ContainsSelf(ElasticFlippedKey);
    CopyKeyNotInElasticFlippedKey();
    TranslationKeyNotInElasticFlippedKey();
    ElasticKeyNotInElasticFlippedKey();
    FeleKeyNotInElasticFlippedKey();
    RadiusKeyNotInElasticFlippedKey();
  }

  lemma CopyKeyNotInRadiusKey()
    ensures !Contains(RadiusKey, CopyKey)
  {
    NotContainsMissing(RadiusKey, CopyKey, 'c');
  }

  lemma TranslationKeyNotInRadiusKey()
    ensures !Contains(RadiusKey, TranslationKey)
  {
    NotContainsMissing(RadiusKey, TranslationKey, 't');
  }

  lemma ElasticKeyNotInRadiusKey()
    ensures !Contains(RadiusKey, ElasticKey)
  {
    NotContainsLonger(RadiusKey, ElasticKey);
  }

  lemma ElasticFlippedKeyNotInRadiusKey()
    ensures !Contains(RadiusKey, ElasticFlippedKey)
  {
    NotContainsLonger(RadiusKey, ElasticFlippedKey);
  }

  lemma FeleKeyNotInRadiusKey()
    ensures !Contains(RadiusKey, FeleKey)
  {
    NotContainsLonger(RadiusKey, FeleKey);
  }

  lemma RadiusKeyFires()
    ensures Contains(RadiusKey, RadiusKey)
    ensures !Contains(RadiusKey, CopyKey) && !Contains(RadiusKey, TranslationKey) && !Contains(RadiusKey, ElasticKey)
    ensures !Contains(RadiusKey, ElasticFlippedKey) && !Contains(RadiusKey, FeleKey)
  {
    ContainsSelf(RadiusKey);
    CopyKeyNotInRadiusKey();
    TranslationKeyNotInRadiusKey();
    ElasticKeyNotInRadiusKey();
    ElasticFlippedKeyNotInRadiusKey();
    FeleKeyNotInRadiusKey();
  }

  /**
   * The relations of the copy, translation, elastic and radius transforms
   * have no parentheses: escaped, each is its own key.
   */
  lemma CopyRelationEscapesToKey()
    ensures Escaped(CopyRelation, ParenChars) == CopyKey
  {
    EscapedParenFree(CopyRelation);
  }

  lemma TranslationRelationEscapesToKey()
    ensures Escaped(TranslationRelation, ParenChars) == TranslationKey
  {
    EscapedParenFree(TranslationRelation);
  }

  lemma ElasticRelationEscapesToKey()
    ensures Escaped(ElasticRelation, ParenChars) == ElasticKey
  {
    EscapedParenFree(ElasticRelation);
  }

  lemma ElasticFlippedRelationEscapesToKey()
    ensures Escaped(ElasticFlippedRelation, ParenChars) == ElasticFlippedKey
  {
    EscapedParenFree(ElasticFlippedRelation);
  }

  lemma RadiusRelationEscapesToKey()
    ensures Escaped(RadiusRelation, ParenChars) == RadiusKey
  {
    EscapedParenFree(RadiusRelation);
  }

  /** Each key other than the volume key, taken as an annotation, fires itself and no other key. */
  lemma CopyKeyFiresOnlyItself()
    ensures forall k :: k in FiredKeys(CopyKey, RelationKeys) <==> k == CopyKey
  {
    CopyKeyFires();
    FiresOnly(CopyKey, RelationKeys, CopyKey);
  }

  lemma TranslationKeyFiresOnlyItself()
    ensures forall k :: k in FiredKeys(TranslationKey, RelationKeys) <==> k == TranslationKey
  {
    TranslationKeyFires();
    FiresOnly(TranslationKey, RelationKeys, TranslationKey);
  }

  lemma ElasticKeyFiresOnlyItself()
    ensures forall k :: k in FiredKeys(ElasticKey, RelationKeys) <==> k == ElasticKey
  {
    ElasticKeyFires();
    FiresOnly(ElasticKey, RelationKeys, ElasticKey);
  }

  lemma ElasticFlippedKeyFiresOnlyItself()
    ensures forall k :: k in FiredKeys(ElasticFlippedKey, RelationKeys) <==> k == ElasticFlippedKey
  {
    ElasticFlippedKeyFires();
    FiresOnly(ElasticFlippedKey, RelationKeys, ElasticFlippedKey);
  }

  lemma RadiusKeyFiresOnlyItself()
    ensures forall k :: k in FiredKeys(RadiusKey, RelationKeys) <==> k == RadiusKey
  {
    RadiusKeyFires();
    FiresOnly(RadiusKey, RelationKeys, RadiusKey);
  }

  lemma CopyRelationFiresOwnKey()
    ensures forall k :: k in FiredKeys(Escaped(CopyRelation, ParenChars), RelationKeys) <==> k == CopyKey
  {
    CopyRelationEscapesToKey();
    CopyKeyFiresOnlyItself();
  }

  lemma TranslationRelationFiresOwnKey()
    ensures forall k :: k in FiredKeys(Escaped(TranslationRelation, ParenChars), RelationKeys) <==> k == TranslationKey
  {
    TranslationRelationEscapesToKey();
    TranslationKeyFiresOnlyItself();
  }

  lemma ElasticRelationFiresOwnKey()
    ensures forall k :: k in FiredKeys(Escaped(ElasticRelation, ParenChars), RelationKeys) <==> k == ElasticKey
  {
    ElasticRelationEscapesToKey();
    ElasticKeyFiresOnlyItself();
  }

  lemma ElasticFlippedRelationFiresOwnKey()
    ensures forall k :: k in FiredKeys(Escaped(ElasticFlippedRelation, ParenChars), RelationKeys) <==> k == ElasticFlippedKey
  {
    ElasticFlippedRelationEscapesToKey();
    ElasticFlippedKeyFiresOnlyItself();
  }

  lemma RadiusRelationFiresOwnKey()
    ensures forall k :: k in FiredKeys(Escaped(RadiusRelation, ParenChars), RelationKeys) <==> k == RadiusKey
  {
    RadiusRelationEscapesToKey();
    RadiusKeyFiresOnlyItself();
  }

  /** The escaped head of a volume relation: `pruned \(<mode>\)`. */
  function EscapedVolumeHead(mode: string): string {
    "pruned " + "\\(" + mode + "\\)"
  }

  /** The escaped volume relation: `pruned \(<mode>\) by vol <volumeId> of`. */
  function EscapedVolumeRelation(mode: string, volumeId: nat): string {
    EscapedVolumeHead(mode) + VolumeSuffix(volumeId)
  }

  /** Letters the volume suffix ` by vol <n> of` never holds. */
  lemma VolumeSuffixLacks(volumeId: nat)
    ensures 'a' !in VolumeSuffix(volumeId) && 'c' !in VolumeSuffix(volumeId)
    ensures 'u' !in VolumeSuffix(volumeId) && 'x' !in VolumeSuffix(volumeId)
    ensures '(' !in VolumeSuffix(volumeId) && ')' !in VolumeSuffix(volumeId)
  {
    var d, e := NatToString(volumeId), VolumeSuffix(volumeId);
    forall i | 0 <= i < |e| ensures e[i] !in "acux()" {
      if 8 <= i < 8 + |d| {
        assert e[i] == d[i - 8] && IsDigit(d[i - 8]);
      }
    }
  }

  /** Escaping a volume relation backslashes its two parentheses and nothing else. */
  lemma VolumeRelationEscaped(mode: string, volumeId: nat)
    requires '(' !in mode && ')' !in mode
    ensures Escaped(VolumeRelation(mode, volumeId), ParenChars) == EscapedVolumeRelation(mode, volumeId)
  {
    VolumeSuffixLacks(volumeId);
    EscapedParenthesised("pruned ", mode, VolumeSuffix(volumeId));
  }

  const FeleMode: string := "first entry, last exit"

  /** The escaped head split around a character `c` of the mode. */
  lemma EscapedHeadAround(mode: string, a: string, c: char, b: string)
    requires mode == a + [c] + b
    ensures EscapedVolumeHead(mode) == ("pruned \\(" + a) + [c] + (b + "\\)")
  {
  }

  /** The escaped head split around the 'u' of "pruned". */
  lemma EscapedHeadAroundU(mode: string)
    ensures EscapedVolumeHead(mode) == "pr" + "u" + ("ned \\(" + mode + "\\)")
  {
  }

  lemma VolumeSuffix109()
    ensures VolumeSuffix(109) == " by vol 109 of"
  {
    assert NatToString(109) == "109";
  }

  lemma FeleHeadLiteral()
    ensures EscapedVolumeHead(FeleMode) == "pruned \\(first entry, last exit\\)"
  {
  }

  lemma FeleKeySplit()
    ensures EscapedVolumeHead(FeleMode) + " by vol 109 of" == FeleKey
  {
    FeleHeadLiteral();
    assert "pruned \\(first entry, last exit\\)" + " by vol 109 of" == "pruned \\(first entry, last exit\\) by vol 109 of";
  }

  /** The pusher's volume key is the escaped volume relation for volume 109. */
  lemma FeleKeyIsEscapedRelation()
    ensures EscapedVolumeRelation(FeleMode, 109) == FeleKey
  {
    VolumeSuffix109();
    FeleKeySplit();
  }

  /** The escaped "first entry, last exit" relation lacks the translation key, whatever the volume. */
  lemma FeleRelationLacksTranslationKey(volumeId: nat)
    ensures !Contains(EscapedVolumeRelation(FeleMode, volumeId), TranslationKey)
  {
    VolumeSuffixLacks(volumeId);
    assert FeleMode == "first entry, l" + "a" + "st exit";
    EscapedHeadAround(FeleMode, "first entry, l", 'a', "st exit");
    NotContainsTwice("pruned \\(" + "first entry, l", 'a', "st exit" + "\\)", VolumeSuffix(volumeId), TranslationKey, 2, 6);
  }

  /** The escaped "first entry, last exit" relation lacks the radius key, whatever the volume. */
  lemma FeleRelationLacksRadiusKey(volumeId: nat)
    ensures !Contains(EscapedVolumeRelation(FeleMode, volumeId), RadiusKey)
  {
    VolumeSuffixLacks(volumeId);
    EscapedHeadAroundU(FeleMode);
    NotContainsTwice("pr", 'u', "ned \\(" + FeleMode + "\\)", VolumeSuffix(volumeId), RadiusKey, 4, 9);
  }

  /** The escaped "first entry, last exit" relation lacks the keys that hold a 'c', whatever the volume. */
  lemma FeleRelationLacksC(volumeId: nat)
    ensures !Contains(EscapedVolumeRelation(FeleMode, volumeId), CopyKey)
    ensures !Contains(EscapedVolumeRelation(FeleMode, volumeId), ElasticKey)
    ensures !Contains(EscapedVolumeRelation(FeleMode, volumeId), ElasticFlippedKey)
  {
    var e := EscapedVolumeRelation(FeleMode, volumeId);
    VolumeSuffixLacks(volumeId);
    assert 'c' !in EscapedVolumeHead(FeleMode);
    assert 'c' !in e;
    NotContainsMissing(e, CopyKey, 'c');
    NotContainsMissing(e, ElasticKey, 'c');
    NotContainsMissing(e, ElasticFlippedKey, 'c');
  }

  /** `p + (v + d + " of")` regrouped as `p + v + d + " " + "of"`. */
  lemma RegroupSuffix(p: string, v: string, d: string)
    ensures p + (v + d + " of") == p + v + d + " " + "of"
  {
    assert " of" == " " + "of";
  }

  /** The only 'x' of the escaped "first entry, last exit" relation is the one of "exit", at index 28. */
  lemma FeleRelationAnchor(volumeId: nat)
    ensures OnlyAt(EscapedVolumeRelation(FeleMode, volumeId), 'x', 28)
  {
    VolumeSuffixLacks(volumeId);
    assert FeleMode == "first entry, last e" + "x" + "it";
    EscapedHeadAround(FeleMode, "first entry, last e", 'x', "it");
    OnlyAtSplit("pruned \\(" + "first entry, last e", 'x', "it" + "\\)", VolumeSuffix(volumeId));
  }

  /** The volume key can only occur at the start of the escaped relation. */
  lemma FeleKeyOccursAtStart(volumeId: nat, p: nat)
    requires OccursAt(EscapedVolumeRelation(FeleMode, volumeId), FeleKey, p)
    ensures p == 0
  {
    FeleRelationAnchor(volumeId);
    assert FeleKey[28] == 'x';
    AnchoredOccurrence(EscapedVolumeRelation(FeleMode, volumeId), FeleKey, 'x', 28, 28, p);
  }

  /** A relation that starts with the volume key is the relation of volume 109. */
  lemma FeleKeyPrefixVolume(volumeId: nat)
    requires FeleKey <= EscapedVolumeRelation(FeleMode, volumeId)
    ensures volumeId == 109
  {
    var head, d := EscapedVolumeHead(FeleMode), NatToString(volumeId);
    var lit := head + " by vol ";
    FeleKeySplit();
    assert " by vol 109 of" == " by vol " + "109" + " " + "of";
    assert FeleKey == lit + "109" + " " + "of";
    RegroupSuffix(head, " by vol ", d);
    assert lit + "109" + " " <= FeleKey;
    assert NatToString(109) == "109";
    LabelledNumberPrefix(lit, "109", d, "of");
    NatToStringInjective(109, volumeId);
  }

  /** The volume key occurs in the escaped relation of volume v exactly when v is 109. */
  lemma FeleVolumeKeyIff(volumeId: nat)
    ensures Contains(EscapedVolumeRelation(FeleMode, volumeId), FeleKey) <==> volumeId == 109
  {
    var e := EscapedVolumeRelation(FeleMode, volumeId);
    if Contains(e, FeleKey) {
      ContainsIff(e, FeleKey);
      var p: nat :| OccursAt(e, FeleKey, p);
      FeleKeyOccursAtStart(volumeId, p);
      FeleKeyPrefixVolume(volumeId);
    }
    if volumeId == 109 {
      FeleKeyIsEscapedRelation();
      ContainsSelf(FeleKey);
    }
  }

  /**
   * The escaped "first entry, last exit" relation of volume v holds the
   * pusher's volume key exactly when v is 109, and no other key.
   */
  lemma FeleRelationFiresOnlyForVolume109(volumeId: nat)
    ensures forall k :: k in FiredKeys(Escaped(FeleRelation(volumeId), ParenChars), RelationKeys) <==> k == FeleKey && volumeId == 109
  {
    VolumeRelationEscaped(FeleMode, volumeId);
    FeleRelationLacksC(volumeId);
    FeleRelationLacksTranslationKey(volumeId);
    FeleRelationLacksRadiusKey(volumeId);
    FeleVolumeKeyIff(volumeId);
    FiresAtMost(EscapedVolumeRelation(FeleMode, volumeId), RelationKeys, FeleKey);
  }

  lemma StrictRelationLacksCopyKey(volumeId: nat)
    ensures !Contains(EscapedVolumeRelation("strict", volumeId), CopyKey)
  {
    VolumeSuffixLacks(volumeId);
    EscapedHeadAround("strict", "stri", 'c', "t");
    NotContainsAnchored("pruned \\(" + "stri", 'c', "t" + "\\)", VolumeSuffix(volumeId), CopyKey, 0, 1);
  }

  /** The strict relation has no 'a', so it lacks every key that holds one. */
  lemma StrictRelationLacksA(volumeId: nat)
    ensures 'a' !in EscapedVolumeRelation("strict", volumeId)
  {
    VolumeSuffixLacks(volumeId);
    assert 'a' !in EscapedVolumeHead("strict");
  }

  lemma StrictRelationLacksKeysWithA(volumeId: nat)
    ensures !Contains(EscapedVolumeRelation("strict", volumeId), TranslationKey)
    ensures !Contains(EscapedVolumeRelation("strict", volumeId), ElasticKey)
    ensures !Contains(EscapedVolumeRelation("strict", volumeId), ElasticFlippedKey)
    ensures !Contains(EscapedVolumeRelation("strict", volumeId), FeleKey)
    ensures !Contains(EscapedVolumeRelation("strict", volumeId), RadiusKey)
  {
    var e := EscapedVolumeRelation("strict", volumeId);
    StrictRelationLacksA(volumeId);
    NotContainsMissing(e, TranslationKey, 'a');
    NotContainsMissing(e, ElasticKey, 'a');
    NotContainsMissing(e, ElasticFlippedKey, 'a');
    NotContainsMissing(e, FeleKey, 'a');
    NotContainsMissing(e, RadiusKey, 'a');
  }

  /** The strict volume-pruning relation fires none of the pusher's keys, whatever the volume. */
  lemma StrictRelationFiresNothing(volumeId: nat)
    ensures FiredKeys(Escaped(StrictRelation(volumeId), ParenChars), RelationKeys) == []
  {
    VolumeRelationEscaped("strict", volumeId);
    StrictRelationLacksCopyKey(volumeId);
    StrictRelationLacksKeysWithA(volumeId);
    FiresNone(EscapedVolumeRelation("strict", volumeId), RelationKeys);
  }

  // ---- Relation keys on a whole linking annotation ----

  /** What keeps a relation key inside the relation part of an escaped linking annotation. */
  ghost predicate KeyShape(key: string) {
    && |key| > 2 && key[|key| - 1] == 'f' && 'j' !in key && 'k' !in key
    && key[0] != ' ' && key[0] !in "LINKED NEURON - "
    && !(key[0] == 'r' && key[1] == ' ') && !(key[0] == 'e' && key[1] == 'r')
    && ('v' !in key || key[0] == 'p')
  }

  lemma CopyKeyShaped() ensures KeyShape(CopyKey) { }
  lemma TranslationKeyShaped() ensures KeyShape(TranslationKey) { }
  lemma ElasticKeyShaped() ensures KeyShape(ElasticKey) { }
  lemma ElasticFlippedKeyShaped() ensures KeyShape(ElasticFlippedKey) { }
  lemma FeleKeyLacksJ()
    ensures 'j' !in FeleKey
  {
    FeleKeySplit();
    assert 'j' !in EscapedVolumeHead(FeleMode) && 'j' !in " by vol 109 of";
  }

  lemma FeleKeyLacksK()
    ensures 'k' !in FeleKey
  {
    FeleKeySplit();
    assert 'k' !in EscapedVolumeHead(FeleMode) && 'k' !in " by vol 109 of";
  }

  lemma FeleKeyShaped()
    ensures KeyShape(FeleKey)
  {
    FeleKeyLacksJ();
    FeleKeyLacksK();
    var h, c := EscapedVolumeHead(FeleMode), " by vol 109 of";
    FeleKeySplit();
    assert h[0] == 'p' && h[1] == 'r';
    assert (h + c)[0] == h[0] && (h + c)[1] == h[1];
    assert (h + c)[|h + c| - 1] == c[|c| - 1];
  }
  lemma RadiusKeyShaped() ensures KeyShape(RadiusKey) { }

  lemma RelationKeysShaped(key: string)
    requires key in RelationKeys
    ensures KeyShape(key)
  {
    CopyKeyShaped();
    TranslationKeyShaped();
    ElasticKeyShaped();
    ElasticFlippedKeyShaped();
    FeleKeyShaped();
    RadiusKeyShaped();
  }

  /**
   * What the template text after the relation offers a key: a 'j' at
   * `j`, no 'p' after it, no 'f' and no parenthesis, and `ver ` at the end.
   */
  ghost predicate TailShape(t: string, j: nat) {
    && j + 4 < |t| && t[j] == 'j' && 'f' !in t && '(' !in t && ')' !in t
    && t[|t| - 4..] == "ver " && 'p' !in t[j + 1..]
  }

  /** A tail whose only 'j' sits between `x` and `after`. */
  lemma TailShapeAround(x: string, after: string)
    requires 'f' !in x && '(' !in x && ')' !in x
    requires 'f' !in after && '(' !in after && ')' !in after && 'p' !in after
    requires |after| >= 4 && after[|after| - 4..] == "ver "
    ensures TailShape(x + "j" + after, |x|)
  {
    var t := x + "j" + after;
    assert t[|x| + 1..] == after;
    assert t[|t| - 4..] == after[|after| - 4..];
  }

  lemma MiddleTail(skid: nat, pid: nat)
    ensures TailShape(LinkMiddle(skid, pid), |SkidPattern(skid)| + 6)
  {
    MiddleSplitAtJ(skid, pid);
    MiddleBeforeJLacks(skid);
    MiddleAfterJLacks(pid);
    TailShapeAround(MiddleBeforeJ(skid), MiddleAfterJ(pid));
  }

  /** A space in front moves the 'j' by one. */
  lemma SpacedTail(m: string, j: nat)
    requires TailShape(m, j)
    ensures TailShape(" " + m, j + 1)
  {
    var t := " " + m;
    assert t[j + 1] == m[j] && t[j + 2..] == m[j + 1..];
    assert t[|t| - 4..] == m[|m| - 4..];
  }

  /** A key absent from the server's text is absent from the template's tail followed by it. */
  lemma KeyNotInTail(t: string, s: string, key: string, j: nat)
    requires KeyShape(key) && TailShape(t, j) && !Contains(s, key)
    ensures !Contains(t + s, key)
  {
    var a := t + s;
    if Contains(a, key) {
      ContainsIff(a, key);
      var p: nat :| OccursAt(a, key, p);
      if p >= |t| {
        OccurrenceAfter(t, s, key, p);
      } else if p + |key| <= |t| {
        SliceAt(a, p, |key|, |key| - 1);
        assert false;
      } else if p <= j {
        SliceAt(a, p, |key|, j - p);
        assert false;
      } else if 'v' in key {
        SliceAt(a, p, |key|, 0);
        assert false;
      } else if p <= |t| - 4 {
        SliceAt(a, p, |key|, |t| - 4 - p);
        assert false;
      } else {
        SliceAt(a, p, |key|, 0);
        SliceAt(a, p, |key|, 1);
        assert false;
      }
    }
  }

  /** No key runs from the relation into the tail that starts ` sk`. */
  lemma KeyNotAcross(r: string, y: string, key: string)
    requires KeyShape(key) && |y| > 2 && y[0] == ' ' && y[1] == 's' && y[2] == 'k'
    requires !Contains(r, key) && !Contains(y, key)
    ensures !Contains(r + y, key)
  {
    var a := r + y;
    if Contains(a, key) {
      ContainsIff(a, key);
      var p: nat :| OccursAt(a, key, p);
      if p >= |r| {
        OccurrenceAfter(r, y, key, p);
      } else if p + |key| > |r| + 2 {
        SliceAt(a, p, |key|, |r| + 2 - p);
        assert false;
      } else if p + |key| > |r| {
        SliceAt(a, p, |key|, |key| - 1);
        assert false;
      } else {
        assert a[p..p + |key|] == r[p..p + |key|];
        OccursContains(r, key, p);
      }
    }
  }

  /** The escaped annotation: everything but the relation and the server is free of parentheses. */
  lemma EscapedAnnotationBare(skid: nat, pid: nat, server: string)
    ensures Escaped(LinkingAnnotation("", skid, pid, server), ParenChars)
            == "LINKED NEURON - " + (LinkMiddle(skid, pid) + Escaped(server, ParenChars))
  {
    var pre, m := "LINKED NEURON - ", LinkMiddle(skid, pid);
    assert '(' !in m && ')' !in m by {
      MiddleTail(skid, pid);
    }
    assert LinkingAnnotation("", skid, pid, server) == pre + (m + server) by {
      LinkingAnnotationParts("", skid, pid, server);
    }
    assert '(' !in pre && ')' !in pre;
    EscapedAfterFree(m, server);
    EscapedAfterFree(pre, m + server);
  }

  lemma EscapedAnnotationWith(relation: string, skid: nat, pid: nat, server: string)
    requires relation != ""
    ensures Escaped(LinkingAnnotation(relation, skid, pid, server), ParenChars)
            == "LINKED NEURON - " + (Escaped(relation, ParenChars) + ((" " + LinkMiddle(skid, pid)) + Escaped(server, ParenChars)))
  {
    AnnotationWithParts(relation, skid, pid, server);
    AnnotationWithParenFree(skid, pid);
    EscapedBetween("LINKED NEURON - ", relation, " " + LinkMiddle(skid, pid), server);
  }

  /** A linking annotation with a relation, cut around the relation and the server. */
  lemma AnnotationWithParts(relation: string, skid: nat, pid: nat, server: string)
    requires relation != ""
    ensures LinkingAnnotation(relation, skid, pid, server) == "LINKED NEURON - " + relation + (" " + LinkMiddle(skid, pid)) + server
  {
    LinkingAnnotationParts(relation, skid, pid, server);
    RegroupSpace("LINKED NEURON - ", relation, LinkMiddle(skid, pid), server);
  }

  lemma RegroupSpace(pre: string, r: string, m: string, s: string)
    ensures pre + r + " " + m + s == pre + r + (" " + m) + s
  {
  }

  /** The fixed parts of a linking annotation around the relation are free of parentheses. */
  lemma AnnotationWithParenFree(skid: nat, pid: nat)
    ensures '(' !in "LINKED NEURON - " && ')' !in "LINKED NEURON - "
    ensures '(' !in " " + LinkMiddle(skid, pid) && ')' !in " " + LinkMiddle(skid, pid)
  {
    MiddleTail(skid, pid);
  }

  /** With no relation, the annotation holds no key its server does not. */
  lemma BareAnnotationLacksKey(skid: nat, pid: nat, server: string, key: string)
    requires key in RelationKeys && !Contains(Escaped(server, ParenChars), key)
    ensures !Contains(Escaped(LinkingAnnotation("", skid, pid, server), ParenChars), key)
  {
    var m := LinkMiddle(skid, pid);
    RelationKeysShaped(key);
    MiddleTail(skid, pid);
    EscapedAnnotationBare(skid, pid, server);
    KeyNotInTail(m, Escaped(server, ParenChars), key, |SkidPattern(skid)| + 6);
    NotContainsAfterPrefix("LINKED NEURON - ", m + Escaped(server, ParenChars), key);
  }

  /** With a relation, the annotation holds no key that neither the relation nor the server holds. */
  lemma AnnotationLacksKey(relation: string, skid: nat, pid: nat, server: string, key: string)
    requires relation != "" && key in RelationKeys
    requires !Contains(Escaped(server, ParenChars), key) && !Contains(Escaped(relation, ParenChars), key)
    ensures !Contains(Escaped(LinkingAnnotation(relation, skid, pid, server), ParenChars), key)
  {
    var m, es, er := LinkMiddle(skid, pid), Escaped(server, ParenChars), Escaped(relation, ParenChars);
    var j := |SkidPattern(skid)| + 6;
    var t := " " + m;
    RelationKeysShaped(key);
    EscapedAnnotationWith(relation, skid, pid, server);
    assert TailShape(t, j + 1) by {
      MiddleTail(skid, pid);
      SpacedTail(m, j);
    }
    KeyNotInTail(t, es, key, j + 1);
    assert (t + es)[0] == ' ' && (t + es)[1] == 's' && (t + es)[2] == 'k' by {
      MiddleAnchors(skid, pid);
    }
    KeyNotAcross(er, t + es, key);
    NotContainsAfterPrefix("LINKED NEURON - ", er + (t + es), key);
  }

  /**
   * A relation key fires on an escaped linking annotation exactly when it
   * fires on the escaped relation, for a server whose escaped text holds
   * no key.
   */
  lemma AnnotationKeyIff(relation: string, skid: nat, pid: nat, server: string, key: string)
    requires key in RelationKeys && !Contains(Escaped(server, ParenChars), key)
    ensures Contains(Escaped(LinkingAnnotation(relation, skid, pid, server), ParenChars), key)
            <==> Contains(Escaped(relation, ParenChars), key)
  {
    var er := Escaped(relation, ParenChars);
    if relation == "" {
      BareAnnotationLacksKey(skid, pid, server, key);
      assert er == [];
      NotContainsLonger(er, key);
    } else if Contains(er, key) {
      KeyFiresOnLinkingAnnotation(relation, key, skid, pid, server);
    } else {
      AnnotationLacksKey(relation, skid, pid, server, key);
    }
  }

  lemma {:induction false} FiredKeysAgree(a: string, b: string, keys: seq<string>)
    requires forall k :: k in keys ==> (Contains(a, k) <==> Contains(b, k))
    ensures FiredKeys(a, keys) == FiredKeys(b, keys)
  {
    if keys != [] {
      FiredKeysAgree(a, b, keys[1..]);
    }
  }

  /**
   * The pusher reads the relation off a linking annotation: the keys that
   * fire on the escaped annotation are those that fire on the escaped
   * relation, as long as the escaped server fires none.
   */
  lemma LinkingAnnotationFiresAsRelation(relation: string, skid: nat, pid: nat, server: string)
    requires FiredKeys(Escaped(server, ParenChars), RelationKeys) == []
    ensures FiredKeys(Escaped(LinkingAnnotation(relation, skid, pid, server), ParenChars), RelationKeys)
            == FiredKeys(Escaped(relation, ParenChars), RelationKeys)
  {
    var ea, er := Escaped(LinkingAnnotation(relation, skid, pid, server), ParenChars), Escaped(relation, ParenChars);
    forall k | k in RelationKeys ensures Contains(ea, k) <==> Contains(er, k) {
      assert k !in FiredKeys(Escaped(server, ParenChars), RelationKeys);
      AnnotationKeyIff(relation, skid, pid, server, k);
    }
    FiredKeysAgree(ea, er, RelationKeys);
  }

  /** The annotation the copy, translation and radius-prune transforms write fires its own key and nothing else. */
  lemma TransformAnnotationsFireOwnKey(skid: nat, pid: nat, server: string)
    requires FiredKeys(Escaped(server, ParenChars), RelationKeys) == []
    ensures forall k :: k in FiredKeys(Escaped(LinkingAnnotation(CopyRelation, skid, pid, server), ParenChars), RelationKeys) <==> k == CopyKey
    ensures forall k :: k in FiredKeys(Escaped(LinkingAnnotation(TranslationRelation, skid, pid, server), ParenChars), RelationKeys) <==> k == TranslationKey
    ensures forall k :: k in FiredKeys(Escaped(LinkingAnnotation(RadiusRelation, skid, pid, server), ParenChars), RelationKeys) <==> k == RadiusKey
  {
    LinkingAnnotationFiresAsRelation(CopyRelation, skid, pid, server);
    CopyRelationFiresOwnKey();
    LinkingAnnotationFiresAsRelation(TranslationRelation, skid, pid, server);
    TranslationRelationFiresOwnKey();
    LinkingAnnotationFiresAsRelation(RadiusRelation, skid, pid, server);
    RadiusRelationFiresOwnKey();
  }

  /** Likewise the annotations of the two elastic transforms. */
  lemma ElasticAnnotationsFireOwnKey(skid: nat, pid: nat, server: string)
    requires FiredKeys(Escaped(server, ParenChars), RelationKeys) == []
    ensures forall k :: k in FiredKeys(Escaped(LinkingAnnotation(ElasticRelation, skid, pid, server), ParenChars), RelationKeys) <==> k == ElasticKey
    ensures forall k :: k in FiredKeys(Escaped(LinkingAnnotation(ElasticFlippedRelation, skid, pid, server), ParenChars), RelationKeys) <==> k == ElasticFlippedKey
  {
    LinkingAnnotationFiresAsRelation(ElasticRelation, skid, pid, server);
    ElasticRelationFiresOwnKey();
    LinkingAnnotationFiresAsRelation(ElasticFlippedRelation, skid, pid, server);
    ElasticFlippedRelationFiresOwnKey();
  }

  /**
   * The annotation of a volume prune fires the volume key only for the
   * "first entry, last exit" prune of volume 109, and the strict prune's
   * annotation fires nothing.
   */
  lemma VolumeAnnotationsFire(skid: nat, pid: nat, server: string, volumeId: nat)
    requires FiredKeys(Escaped(server, ParenChars), RelationKeys) == []
    ensures forall k :: k in FiredKeys(Escaped(LinkingAnnotation(FeleRelation(volumeId), skid, pid, server), ParenChars), RelationKeys)
                        <==> k == FeleKey && volumeId == 109
    ensures FiredKeys(Escaped(LinkingAnnotation(StrictRelation(volumeId), skid, pid, server), ParenChars), RelationKeys) == []
  {
    LinkingAnnotationFiresAsRelation(FeleRelation(volumeId), skid, pid, server);
    FeleRelationFiresOnlyForVolume109(volumeId);
    LinkingAnnotationFiresAsRelation(StrictRelation(volumeId), skid, pid, server);
    StrictRelationFiresNothing(volumeId);
  }
}
