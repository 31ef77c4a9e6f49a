/** The parts of the file system the processor relies on: paths and their
    suffix, the backup name and its timestamp, and a store of files that
    can be copied and written (src/shopbotjog/core.py:35-39, 320-332, 387). */
module Files {
  import opened Wrappers
  import opened Text

  /** A path: its directory and its final component (`Path.name`). */
  datatype Path = Path(dir: string, name: string)

  /** `name.rfind('.')`: the index of the last dot, if any. */
  function LastDot(name: string): (r: Option<nat>)
    ensures r.Some? ==> (r.value < |name| && name[r.value] == '.'
      && forall j :: r.value < j < |name| ==> name[j] != '.')
    ensures r.None? ==> forall j :: 0 <= j < |name| ==> name[j] != '.'
  {
    if name == [] then None
    else if name[|name| - 1] == '.' then Some(|name| - 1)
    else LastDot(name[..|name| - 1])
  }

  /** `Path.suffix`: from the last dot on, unless that dot starts the name
      or ends it. */
  function Suffix(name: string): string {
    match LastDot(name)
    case Some(i) => if 0 < i < |name| - 1 then name[i..] else ""
    case None => ""
  }

  /** `path.suffix.lower() == ".sbp"`. */
  predicate HasSbpSuffix(p: Path) {
    Lower(Suffix(p.name)) == ".sbp"
  }

  /** The suffix test accepts exactly the names of at least five characters
      ending in `.sbp` in any case; a file called just `.sbp` is refused. */
  lemma SbpSuffixIff(p: Path)
    ensures HasSbpSuffix(p) <==> |p.name| >= 5 && Lower(p.name[|p.name| - 4..]) == ".sbp"
  {
    var name := p.name;
    var n := |name|;
    if HasSbpSuffix(p) {
      var i := LastDot(name).value;
      assert |Suffix(name)| == 4;
      assert i == n - 4;
    }
    if n >= 5 && Lower(name[n - 4..]) == ".sbp" {
      EndsInSbp(name);
    }
  }

  lemma EndsInSbp(name: string)
    requires |name| >= 5 && Lower(name[|name| - 4..]) == ".sbp"
    ensures Lower(Suffix(name)) == ".sbp"
  {
    var n := |name|;
    assert LowerChar(name[n - 4]) == '.';
    forall j | n - 4 < j < n
      ensures name[j] != '.'
    {
      var k := j - (n - 4);
      assert LowerChar(name[j]) == Lower(name[n - 4..])[k] == ".sbp"[k];
      assert ".sbp"[k] != '.';
    }
    assert LastDot(name) == Some(n - 4);
    assert Suffix(name) == name[n - 4..];
  }

  /** The moment `datetime.now()` returns. */
  datatype DateTime = DateTime(year: nat, month: nat, day: nat, hour: nat, minute: nat, second: nat)

  predicate ValidDateTime(t: DateTime) {
    1 <= t.year <= 9999 && 1 <= t.month <= 12 && 1 <= t.day <= 31
    && t.hour < 24 && t.minute < 60 && t.second < 60
  }

  /** `strftime("%Y%m%d_%H%M%S")`. */
  function Stamp(t: DateTime): string {
    Pad(t.year, 4) + Pad(t.month, 2) + Pad(t.day, 2) + "_" + Pad(t.hour, 2) + Pad(t.minute, 2) + Pad(t.second, 2)
  }

  /** A stamp is fifteen characters: eight digits, an underscore and six
      digits. */
  lemma StampShape(t: DateTime)
    requires ValidDateTime(t)
    ensures var s := Stamp(t);
      |s| == 15 && s[8] == '_' && forall i :: 0 <= i < 15 && i != 8 ==> IsDigit(s[i])
  {
    var y, mo, d := Pad(t.year, 4), Pad(t.month, 2), Pad(t.day, 2);
    var h, mi, se := Pad(t.hour, 2), Pad(t.minute, 2), Pad(t.second, 2);
    assert |y| == 4 && |mo| == 2 && |d| == 2 && |h| == 2 && |mi| == 2 && |se| == 2;
    var s := Stamp(t);
    assert s == y + mo + d + "_" + h + mi + se;
    forall i | 0 <= i < 15 && i != 8
      ensures IsDigit(s[i])
    {
      if i < 4 { assert s[i] == y[i]; }
      else if i < 6 { assert s[i] == mo[i - 4]; }
      else if i < 8 { assert s[i] == d[i - 6]; }
      else if i < 11 { assert s[i] == h[i - 9]; }
      else if i < 13 { assert s[i] == mi[i - 11]; }
      else { assert s[i] == se[i - 13]; }
    }
  }

  /** `input_path.parent / f"{input_path.name}.{timestamp}.backup"`. */
  function BackupPath(p: Path, stamp: string): Path {
    Path(p.dir, p.name + "." + stamp + ".backup")
  }

  /** The backup sits next to the file, under a different name that is not
      itself an `.sbp` name. */
  lemma BackupBesideOriginal(p: Path, stamp: string)
    ensures BackupPath(p, stamp).dir == p.dir && BackupPath(p, stamp) != p
    ensures !HasSbpSuffix(BackupPath(p, stamp))
  {
    var b := BackupPath(p, stamp);
    assert |b.name| > |p.name|;
    var n := |b.name|;
    assert b.name[n - 4..] == "ckup";
    SbpSuffixIff(b);
  }

  /** The file system: the lines of every existing file, and the paths
      that cannot be opened for writing. */
  class FileStore {
    var files: map<Path, seq<string>>
    var readOnly: set<Path>

    constructor(files: map<Path, seq<string>>, readOnly: set<Path>)
      ensures this.files == files && this.readOnly == readOnly
    {
      this.files := files;
      this.readOnly := readOnly;
    }

    /** `Path.exists()`. */
    predicate Exists(p: Path)
      reads this
    {
      p in files
    }

    /** `shutil.copy2(src, dst)`; `false` is the OSError. */
    method Copy(src: Path, dst: Path) returns (ok: bool)
      modifies this
      ensures ok <==> src in old(files) && dst !in readOnly
      ensures files == if ok then old(files)[dst := old(files)[src]] else old(files)
      ensures readOnly == old(readOnly)
    {
      ok := src in files && dst !in readOnly;
      if ok {
        files := files[dst := files[src]];
      }
    }

    /** `open(p, "w")` followed by writing `lines`; `false` is the OSError
        raised by `open`, before anything is written. */
    method Write(p: Path, lines: seq<string>) returns (ok: bool)
      modifies this
      ensures ok <==> p !in readOnly
      ensures files == if ok then old(files)[p := lines] else old(files)
      ensures readOnly == old(readOnly)
    {
      ok := p !in readOnly;
      if ok {
        files := files[p := lines];
      }
    }
  }
}
