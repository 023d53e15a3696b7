/** Pod identity out of a cgroup path (collector/kube_path_parser.go, collector/cgroup_classifier.go).
    The pod expressions have a fixed length, so a search is the leftmost position whose 39 characters
    fit; a UID is the text form of section 4 of RFC 9562 in lower case. */
module KubePath {
  import opened Words

  datatype CgroupKind = Host | Systemd | Container | Kubernetes | Unknown {
    function Name(): string {
      match this
      case Host => "host"
      case Systemd => "systemd"
      case Container => "container"
      case Kubernetes => "kubernetes"
      case Unknown => "unknown"
    }
  }

  datatype KubePathInfo = KubePathInfo(isKubernetes: bool, podUid: string, containerId: string, runtime: string)

  const UNRESOLVED := "<desconocido>"

  predicate OccursAt(s: string, sub: string, i: nat) {
    i + |sub| <= |s| && s[i..i + |sub|] == sub
  }

  /** strings.Contains */
  predicate Contains(s: string, sub: string) {
    exists i :: 0 <= i <= |s| && OccursAt(s, sub, i)
  }

  function ClassifyCgroupPath(path: string): CgroupKind {
    if path == "" || path == UNRESOLVED then Unknown
    else if path == "/sys/fs/cgroup" then Host
    else if Contains(path, "kubepods") then Kubernetes
    else if Contains(path, "containerd") || Contains(path, "docker") || Contains(path, "cri-containerd") then Container
    else if Contains(path, ".slice") || Contains(path, "system.slice")
      || Contains(path, "user.slice") || Contains(path, "init.scope") then Systemd
    else Unknown
  }

  // ----- Fixed-shape searches

  const MATCH_LENGTH := 39

  predicate Hex(c: char) {
    '0' <= c <= '9' || 'a' <= c <= 'f'
  }

  /** Whether `c` may stand at offset `k` of "pod" followed by 8-4-4-4-12 digits joined by `sep`. */
  predicate FitsShape(c: char, k: nat, sep: char) {
    if k < 3 then c == "pod"[k]
    else if k in {11, 16, 21, 26} then c == sep
    else Hex(c)
  }

  predicate MatchAt(path: string, i: nat, sep: char) {
    i + MATCH_LENGTH <= |path| && forall j :: i <= j < i + MATCH_LENGTH ==> FitsShape(path[j], j - i, sep)
  }

  function Search(path: string, i: nat, sep: char): Option<nat>
    decreases |path| - i
  {
    if i + MATCH_LENGTH > |path| then None
    else if MatchAt(path, i, sep) then Some(i)
    else Search(path, i + 1, sep)
  }

  lemma {:induction false} SearchIsLeftmost(path: string, i: nat, sep: char)
    ensures match Search(path, i, sep)
      case Some(j) => i <= j && MatchAt(path, j, sep) && (forall k :: i <= k < j ==> !MatchAt(path, k, sep))
      case None => forall k :: i <= k ==> !MatchAt(path, k, sep)
    decreases |path| - i
  {
    if i + MATCH_LENGTH <= |path| && !MatchAt(path, i, sep) {
      SearchIsLeftmost(path, i + 1, sep);
    }
  }

  ghost predicate NoMatch(path: string, sep: char) {
    forall i: nat :: !MatchAt(path, i, sep)
  }

  /** strings.ReplaceAll of one character. */
  function Replaced(s: string, old_: char, new_: char): string {
    seq(|s|, i requires 0 <= i < |s| => if s[i] == old_ then new_ else s[i])
  }

  const CONTAINER_LENGTH := 64

  predicate HexRunAt(path: string, i: nat) {
    i + CONTAINER_LENGTH <= |path| && forall j :: i <= j < i + CONTAINER_LENGTH ==> Hex(path[j])
  }

  function SearchHexRun(path: string, i: nat): (r: Option<nat>)
    ensures r.Some? ==> i <= r.value && HexRunAt(path, r.value)
                        && forall k :: i <= k < r.value ==> !HexRunAt(path, k)
    ensures r.None? ==> forall k :: i <= k ==> !HexRunAt(path, k)
    decreases |path| - i
  {
    if i + CONTAINER_LENGTH > |path| then None
    else if HexRunAt(path, i) then Some(i)
    else SearchHexRun(path, i + 1)
  }

  function PodUid(path: string): string {
    SearchIsLeftmost(path, 0, '-');
    SearchIsLeftmost(path, 0, '_');
    match Search(path, 0, '-')
    case Some(i) => path[i + 3..i + MATCH_LENGTH]
    case None =>
      match Search(path, 0, '_')
      case Some(i) => Replaced(path[i + 3..i + MATCH_LENGTH], '_', '-')
      case None => ""
  }

  function ParseKubePath(path: string): KubePathInfo {
    KubePathInfo(
      Contains(path, "kubepods"),
      PodUid(path),
      match SearchHexRun(path, 0) case Some(i) => path[i..i + CONTAINER_LENGTH] case None => "",
      if Contains(path, "containerd") || Contains(path, "cri-containerd") then "containerd"
      else if Contains(path, "docker") then "docker" else "")
  }

  // ----- The UID

  /** The canonical 36 characters. */
  predicate IsUid(u: string) {
    |u| == 36 && forall k :: 0 <= k < 36 ==> FitsShape(u[k], k + 3, '-')
  }

  /** A UID is reported exactly when the path holds a pod segment, and it is always canonical. */
  lemma UidIsCanonical(path: string)
    ensures var u := ParseKubePath(path).podUid;
      && (u == "" <==> NoMatch(path, '-') && NoMatch(path, '_'))
      && (u != "" ==> IsUid(u))
  {
    SearchIsLeftmost(path, 0, '-');
    SearchIsLeftmost(path, 0, '_');
    if Search(path, 0, '-').Some? {
      SegmentIsUid(path, Search(path, 0, '-').value, '-');
    } else if Search(path, 0, '_').Some? {
      SegmentIsUid(path, Search(path, 0, '_').value, '_');
    }
  }

  lemma SegmentIsUid(path: string, i: nat, sep: char)
    requires MatchAt(path, i, sep) && sep in "-_"
    ensures IsUid(Replaced(path[i + 3..i + MATCH_LENGTH], '_', '-'))
    ensures sep == '-' ==> IsUid(path[i + 3..i + MATCH_LENGTH])
  {
    var s := path[i + 3..i + MATCH_LENGTH];
    forall k | 0 <= k < 36 ensures FitsShape(s[k], k + 3, sep) {
      assert s[k] == path[i + 3 + k];
    }
  }

  // ----- The UID by its groups

  /** `n` characters of 0-9 and a-f. */
  predicate Digits(s: string, n: nat) {
    |s| == n && forall i :: 0 <= i < n ==> '0' <= s[i] <= '9' || 'a' <= s[i] <= 'f'
  }

  predicate Groups(a: string, b: string, c: string, d: string, e: string) {
    Digits(a, 8) && Digits(b, 4) && Digits(c, 4) && Digits(d, 4) && Digits(e, 12)
  }

  function Joined(a: string, b: string, c: string, d: string, e: string, sep: char): string {
    a + [sep] + b + [sep] + c + [sep] + d + [sep] + e
  }

  /** What is 8, 4, 4, 4 and 12 digits joined by dashes is a UID. */
  lemma GroupsMakeUid(a: string, b: string, c: string, d: string, e: string)
    requires Groups(a, b, c, d, e)
    ensures IsUid(Joined(a, b, c, d, e, '-'))
  {
    var u := Joined(a, b, c, d, e, '-');
    forall k | 0 <= k < 36 ensures FitsShape(u[k], k + 3, '-') {
      if k < 8 {
        assert u[k] == a[k];
      } else if 8 < k < 13 {
        assert u[k] == b[k - 9];
      } else if 13 < k < 18 {
        assert u[k] == c[k - 14];
      } else if 18 < k < 23 {
        assert u[k] == d[k - 19];
      } else if 23 < k {
        assert u[k] == e[k - 24];
      }
    }
  }

  lemma CutDigits(u: string, i: nat, n: nat)
    requires IsUid(u)
    requires i + n <= 8 || (9 <= i && i + n <= 13) || (14 <= i && i + n <= 18) || (19 <= i && i + n <= 23) || (24 <= i && i + n <= 36)
    ensures Digits(u[i..i + n], n)
  {
    forall k | i <= k < i + n ensures Hex(u[k]) {
      assert FitsShape(u[k], k + 3, '-');
    }
  }

  /** Every UID is 8, 4, 4, 4 and 12 digits joined by dashes. */
  lemma UidHasGroups(u: string) returns (a: string, b: string, c: string, d: string, e: string)
    requires IsUid(u)
    ensures Groups(a, b, c, d, e) && u == Joined(a, b, c, d, e, '-')
  {
    CutDigits(u, 0, 8);
    CutDigits(u, 9, 4);
    CutDigits(u, 14, 4);
    CutDigits(u, 19, 4);
    CutDigits(u, 24, 12);
    a, b, c, d, e := u[0..8], u[9..13], u[14..18], u[19..23], u[24..36];
    assert FitsShape(u[8], 11, '-') && FitsShape(u[13], 16, '-') && FitsShape(u[18], 21, '-') && FitsShape(u[23], 26, '-');
  }

  /** How each cgroup driver writes a pod directory. */
  function Segment(uid: string, sep: char): string {
    "pod" + Replaced(uid, '-', sep)
  }

  lemma SegmentMatches(prefix: string, uid: string, suffix: string, sep: char)
    requires IsUid(uid)
    ensures MatchAt(prefix + Segment(uid, sep) + suffix, |prefix|, sep)
  {
    var path := prefix + Segment(uid, sep) + suffix;
    forall j | |prefix| <= j < |prefix| + MATCH_LENGTH ensures FitsShape(path[j], j - |prefix|, sep) {
      var k := j - |prefix|;
      assert path[j] == Segment(uid, sep)[k];
      if k >= 3 {
        assert FitsShape(uid[k - 3], k, '-');
      }
    }
  }

  lemma PFitsOnlyFirst(k: nat, sep: char)
    requires sep in "-_"
    ensures FitsShape('p', k, sep) ==> k == 0
  {
  }

  /** No match straddles the start of a pod segment: its 'p' fits nowhere inside a match. */
  lemma NoStraddle(prefix: string, rest: string, i: nat, sep: char)
    requires sep in "-_" && i < |prefix| && MatchAt(prefix + "pod" + rest, i, sep)
    ensures MatchAt(prefix, i, sep)
  {
    var path := prefix + "pod" + rest;
    assert path[|prefix|] == 'p';
    PFitsOnlyFirst(|prefix| - i, sep);
    assert i + MATCH_LENGTH <= |prefix|;
    forall j | i <= j < i + MATCH_LENGTH ensures FitsShape(prefix[j], j - i, sep) {
      assert path[j] == prefix[j];
    }
  }

  /** The leftmost match is the segment itself when the prefix holds none. */
  lemma FoundAtSegment(prefix: string, uid: string, suffix: string, sep: char)
    requires IsUid(uid) && sep in "-_" && NoMatch(prefix, sep)
    ensures Search(prefix + Segment(uid, sep) + suffix, 0, sep) == Some(|prefix|)
  {
    var path := prefix + Segment(uid, sep) + suffix;
    var rest := Replaced(uid, '-', sep) + suffix;
    assert path == prefix + "pod" + rest;
    SearchIsLeftmost(path, 0, sep);
    SegmentMatches(prefix, uid, suffix, sep);
    forall i: nat | i < |prefix| ensures !MatchAt(path, i, sep) {
      if MatchAt(path, i, sep) {
        NoStraddle(prefix, rest, i, sep);
      }
    }
  }

  lemma CutOut(prefix: string, uid: string, suffix: string, sep: char)
    requires |uid| == 36
    ensures var path := prefix + Segment(uid, sep) + suffix;
      && |path| >= |prefix| + MATCH_LENGTH
      && path[|prefix| + 3..|prefix| + MATCH_LENGTH] == Replaced(uid, '-', sep)
  {
    var path := prefix + Segment(uid, sep) + suffix;
    var cut := path[|prefix| + 3..|prefix| + MATCH_LENGTH];
    assert |cut| == 36;
    forall k | 0 <= k < 36 ensures cut[k] == Replaced(uid, '-', sep)[k] {
      assert cut[k] == path[|prefix| + 3 + k] == Segment(uid, sep)[3 + k];
    }
  }

  /** Dashed paths: every UID parses back, whatever follows it. */
  lemma DashedRoundTrip(prefix: string, uid: string, suffix: string)
    requires IsUid(uid) && NoMatch(prefix, '-')
    ensures ParseKubePath(prefix + Segment(uid, '-') + suffix).podUid == uid
  {
    FoundAtSegment(prefix, uid, suffix, '-');
    CutOut(prefix, uid, suffix, '-');
    assert Replaced(uid, '-', '-') == uid;
  }

  /** An underscored segment brings in no dashed match of its own. */
  lemma NoDashedMatch(prefix: string, uid: string, suffix: string)
    requires IsUid(uid) && NoMatch(prefix, '-') && NoMatch(suffix, '-')
    ensures NoMatch(prefix + Segment(uid, '_') + suffix, '-')
  {
    var path := prefix + Segment(uid, '_') + suffix;
    var rest := Replaced(uid, '-', '_') + suffix;
    assert path == prefix + "pod" + rest;
    forall i: nat ensures !MatchAt(path, i, '-') {
      if MatchAt(path, i, '-') {
        if i < |prefix| {
          NoStraddle(prefix, rest, i, '-');
        } else if i < |prefix| + MATCH_LENGTH {
          NoDashedInside(prefix, uid, suffix, i);
        } else {
          var shift := |prefix| + MATCH_LENGTH;
          forall j | i - shift <= j < i - shift + MATCH_LENGTH ensures FitsShape(suffix[j], j - (i - shift), '-') {
            assert path[j + shift] == suffix[j];
          }
          assert MatchAt(suffix, i - shift, '-');
        }
      }
    }
  }

  lemma NoDashedInside(prefix: string, uid: string, suffix: string, i: nat)
    requires IsUid(uid) && |prefix| <= i < |prefix| + MATCH_LENGTH
    ensures !MatchAt(prefix + Segment(uid, '_') + suffix, i, '-')
  {
    var path := prefix + Segment(uid, '_') + suffix;
    SegmentMatches(prefix, uid, suffix, '_');
    PFitsOnlyFirst(i - |prefix|, '_');
    assert FitsShape(path[i], i - |prefix|, '_');
    assert path[|prefix| + 11] == '_';
  }

  /** Underscored paths: every UID parses back, unless a dashed segment stands elsewhere. */
  lemma UnderscoredRoundTrip(prefix: string, uid: string, suffix: string)
    requires IsUid(uid) && NoMatch(prefix, '-') && NoMatch(prefix, '_') && NoMatch(suffix, '-')
    ensures ParseKubePath(prefix + Segment(uid, '_') + suffix).podUid == uid
  {
    var path := prefix + Segment(uid, '_') + suffix;
    NoDashedMatch(prefix, uid, suffix);
    SearchIsLeftmost(path, 0, '-');
    FoundAtSegment(prefix, uid, suffix, '_');
    CutOut(prefix, uid, suffix, '_');
    var back := Replaced(Replaced(uid, '-', '_'), '_', '-');
    forall k | 0 <= k < 36 ensures back[k] == uid[k] {
      assert FitsShape(uid[k], k + 3, '-');
    }
    assert back == uid;
  }

  /** A dashed segment wins over an underscored one even when it comes later in the path. */
  lemma DashedWins(prefix: string, first: string, middle: string, second: string, suffix: string)
    requires IsUid(first) && IsUid(second) && NoMatch(prefix, '-') && NoMatch(middle, '-')
    ensures ParseKubePath(prefix + Segment(first, '_') + middle + Segment(second, '-') + suffix).podUid == second
  {
    NoDashedMatch(prefix, first, middle);
    DashedRoundTrip(prefix + Segment(first, '_') + middle, second, suffix);
  }

  lemma JoinedAnew(a: string, b: string, c: string, d: string, e: string)
    requires Groups(a, b, c, d, e)
    ensures Replaced(Joined(a, b, c, d, e, '-'), '-', '_') == Joined(a, b, c, d, e, '_')
  {
    var u, w := Joined(a, b, c, d, e, '-'), Joined(a, b, c, d, e, '_');
    forall k | 0 <= k < 36 ensures Replaced(u, '-', '_')[k] == w[k] {
      if k < 8 {
        assert u[k] == a[k] == w[k];
      } else if 8 < k < 13 {
        assert u[k] == b[k - 9] == w[k];
      } else if 13 < k < 18 {
        assert u[k] == c[k - 14] == w[k];
      } else if 18 < k < 23 {
        assert u[k] == d[k - 19] == w[k];
      } else if 23 < k {
        assert u[k] == e[k - 24] == w[k];
      }
    }
  }

  /** Group by group: both encodings of one pod directory give one UID, written with dashes. */
  lemma EncodingsAgree(prefix: string, a: string, b: string, c: string, d: string, e: string, suffix: string)
    requires Groups(a, b, c, d, e) && NoMatch(prefix, '-') && NoMatch(prefix, '_') && NoMatch(suffix, '-')
    ensures ParseKubePath(prefix + "pod" + Joined(a, b, c, d, e, '-') + suffix).podUid == Joined(a, b, c, d, e, '-')
    ensures ParseKubePath(prefix + "pod" + Joined(a, b, c, d, e, '_') + suffix).podUid == Joined(a, b, c, d, e, '-')
  {
    var u := Joined(a, b, c, d, e, '-');
    GroupsMakeUid(a, b, c, d, e);
    JoinedAnew(a, b, c, d, e);
    DashedRoundTrip(prefix, u, suffix);
    UnderscoredRoundTrip(prefix, u, suffix);
    hide ParseKubePath, Joined;
    assert Replaced(u, '-', '-') == u;
    assert prefix + ("pod" + u) + suffix == prefix + "pod" + u + suffix;
    var w := Joined(a, b, c, d, e, '_');
    assert prefix + ("pod" + w) + suffix == prefix + "pod" + w + suffix;
  }

  // ----- The rest of the path

  predicate DigitsAt(path: string, i: nat) {
    i + 64 <= |path| && Digits(path[i..i + 64], 64)
  }

  /** The container is the leftmost run of 64 digits, if there is one. */
  lemma ContainerIsLeftmost(path: string)
    ensures var id := ParseKubePath(path).containerId;
      if id == "" then forall i: nat :: !DigitsAt(path, i)
      else exists i: nat :: DigitsAt(path, i) && id == path[i..i + 64] && forall k :: 0 <= k < i ==> !DigitsAt(path, k)
  {
    forall i: nat ensures DigitsAt(path, i) <==> HexRunAt(path, i) {
      RunsAreDigits(path, i);
    }
    if SearchHexRun(path, 0).Some? {
      assert DigitsAt(path, SearchHexRun(path, 0).value);
    }
  }

  lemma RunsAreDigits(path: string, i: nat)
    ensures DigitsAt(path, i) <==> HexRunAt(path, i)
  {
    if i + 64 <= |path| {
      var s := path[i..i + 64];
      assert forall k :: 0 <= k < 64 ==> s[k] == path[i + k];
      assert forall j :: i <= j < i + 64 ==> path[j] == s[j - i];
    }
  }

  /** What holds a longer text holds its tail. */
  lemma ContainsTail(s: string, long: string, tail: string)
    requires |tail| <= |long| && long[|long| - |tail|..] == tail && Contains(s, long)
    ensures Contains(s, tail)
  {
    var i :| 0 <= i <= |s| && OccursAt(s, long, i);
    var j := i + |long| - |tail|;
    assert s[i..i + |long|][|long| - |tail|..] == s[j..j + |tail|];
    assert OccursAt(s, tail, j);
  }

  lemma OccursFromStart(s: string, sub: string, i: nat)
    requires OccursAt(s, sub, i) && |sub| > 1
    ensures s[i] == sub[0] && s[i + 1] == sub[1]
  {
    assert s[i..i + |sub|][0] == s[i] && s[i..i + |sub|][1] == s[i + 1];
  }

  lemma AbsentFrom(s: string, sub: string)
    requires |sub| > 1 && forall i :: 0 <= i && i + |sub| <= |s| ==> s[i] != sub[0] || s[i + 1] != sub[1]
    ensures !Contains(s, sub)
  {
    if Contains(s, sub) {
      var i :| 0 <= i <= |s| && OccursAt(s, sub, i);
      OccursFromStart(s, sub, i);
    }
  }

  /** The paths that are told apart first hold none of the marks. */
  lemma SpecialHasNoMark(path: string, mark: string)
    requires path in {"", UNRESOLVED, "/sys/fs/cgroup"}
    requires mark in {"kubepods", "containerd", "docker", ".slice", "init.scope"}
    ensures !Contains(path, mark)
  {
    AbsentFrom(path, mark);
  }

  /** Each kind by the marks in the path; the parser and the classifier agree on what is Kubernetes. */
  lemma KindByMarks(path: string)
    ensures var k, kube := ClassifyCgroupPath(path), Contains(path, "kubepods");
      var box := Contains(path, "containerd") || Contains(path, "docker");
      var unit := Contains(path, ".slice") || Contains(path, "init.scope");
      && (k == Kubernetes <==> kube) && (k == Container <==> !kube && box) && (k == Systemd <==> !kube && !box && unit)
      && (k == Host <==> path == "/sys/fs/cgroup")
    ensures ParseKubePath(path).isKubernetes <==> ClassifyCgroupPath(path) == Kubernetes
  {
    Tails(path);
    if path in {"", UNRESOLVED, "/sys/fs/cgroup"} {
      SpecialHasNoMark(path, "kubepods");
      SpecialHasNoMark(path, "containerd");
      SpecialHasNoMark(path, "docker");
      SpecialHasNoMark(path, ".slice");
      SpecialHasNoMark(path, "init.scope");
    }
    hide Contains;
  }

  lemma Tails(path: string)
    ensures Contains(path, "cri-containerd") ==> Contains(path, "containerd")
    ensures Contains(path, "system.slice") || Contains(path, "user.slice") ==> Contains(path, ".slice")
  {
    if Contains(path, "cri-containerd") {
      ContainsTail(path, "cri-containerd", "containerd");
    }
    if Contains(path, "system.slice") {
      ContainsTail(path, "system.slice", ".slice");
    }
    if Contains(path, "user.slice") {
      ContainsTail(path, "user.slice", ".slice");
    }
  }

  /** containerd wins over docker, which is named only without it. */
  lemma RuntimeByMarks(path: string)
    ensures var r := ParseKubePath(path).runtime;
      r == if Contains(path, "containerd") then "containerd" else if Contains(path, "docker") then "docker" else ""
  {
    Tails(path);
    hide Contains;
  }

  lemma KindNamesDiffer(k: CgroupKind, m: CgroupKind)
    requires k != m
    ensures k.Name() != m.Name()
  {
    assert k.Name()[0] != m.Name()[0];
  }
}
