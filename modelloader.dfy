/**
 * The path helpers of `ModelLoader` (`src/modelloader.h`): the directory
 * part of a model path, the model name, and the names of the binary buffer
 * that `save` writes next to the glTF file.
 */
module ModelLoader {
  import opened StringView

  /**
   * `getcwd`: the prefix of `file` up to and including its last `/`; failing
   * that, up to and including its last `\`; failing that, empty.
   */
  function Getcwd(file: string): (r: string)
    requires IsView(file)
    ensures |r| <= |file| && r == file[..|r|]
    ensures '/' in file ==> 0 < |r| && r[|r| - 1] == '/'
    ensures '/' !in file && '\\' in file ==> 0 < |r| && r[|r| - 1] == '\\' && '\\' !in file[|r|..]
    ensures '/' !in file && '\\' !in file ==> r == []
    ensures '/' !in file[|r|..]
  {
    var slash := FindLastOf(file, '/');
    if slash != NPOS then
      Substr(file, 0, SizeT(slash + 1)).value
    else
      var backslash := FindLastOf(file, '\\');
      if backslash != NPOS then Substr(file, 0, SizeT(backslash + 1)).value
      else []
  }

  /**
   * `getname(file, cwd)`: the text of `file` from index `|cwd|` up to, not
   * including, its last `.`. The length is the unsigned difference
   * `find_last_of('.') - |cwd|`, so when `file` has no `.` at or after
   * `|cwd|` it wraps to a huge count and the name runs to the end of `file`.
   * `None` is the `std::out_of_range` thrown when `cwd` is longer than `file`.
   */
  function Getname(file: string, cwd: string): (r: Option<string>)
    requires IsView(file) && IsView(cwd)
    ensures r.None? <==> |cwd| > |file|
    ensures |cwd| <= |file| ==>
      r.Some? && |cwd| + |r.value| <= |file| && r.value == file[|cwd|..|cwd| + |r.value|]
    ensures |cwd| <= |file| && '.' in file[|cwd|..] ==>
      (r.Some? && |cwd| + |r.value| < |file| && file[|cwd| + |r.value|] == '.' &&
       '.' !in file[|cwd| + |r.value| + 1..])
    ensures |cwd| <= |file| && '.' !in file[|cwd|..] ==> r == Some(file[|cwd|..])
  {
    var cwdL := |cwd|;
    var dot := FindLastOf(file, '.');
    assert cwdL <= |file| && '.' in file[cwdL..] ==> cwdL <= dot < |file| by {
      if cwdL <= |file| && '.' in file[cwdL..] {
        var j :| 0 <= j < |file[cwdL..]| && file[cwdL..][j] == '.';
        var k := cwdL + j;
        assert file[k] == '.';
      }
    }
    Substr(file, cwdL, SizeT(dot - cwdL))
  }

  /** `getname(file)`: the name relative to the file's own directory, which never fails. */
  function GetnameOf(file: string): (r: string)
    requires IsView(file)
    ensures Getname(file, Getcwd(file)) == Some(r)
    ensures '/' !in r
  {
    var cwd := Getcwd(file);
    var r := Getname(file, cwd).value;
    assert r == file[|cwd|..][..|r|];
    r
  }

  /** The buffer file name recorded in the glTF document: `name + ".bin"`. */
  function BufferName(file: string): (r: string)
    requires IsView(file)
    ensures '/' !in r
    ensures |r| >= 4 && r[|r| - 4..] == ".bin"
  {
    GetnameOf(file) + ".bin"
  }

  /** The path the binary buffer is written to: `cwd + bufferName`. */
  function BufferFile(file: string): (r: string)
    requires IsView(file)
  {
    Getcwd(file) + BufferName(file)
  }

  /**
   * The buffer is written next to the model: its path is the model's path
   * with the text from the last `.` of the file name on replaced by `.bin`,
   * or with `.bin` appended when the file name has no `.`.
   */
  lemma BufferFileReplacesExtension(file: string)
    requires IsView(file)
    ensures var cwd := Getcwd(file);
      '.' !in file[|cwd|..] ==> BufferFile(file) == file + ".bin"
    ensures var cwd := Getcwd(file); var k := |BufferFile(file)| - 4;
      '.' in file[|cwd|..] ==>
        |cwd| <= k < |file| && BufferFile(file) == file[..k] + ".bin" &&
        file[k] == '.' && '.' !in file[k + 1..]
  {
    var cwd := Getcwd(file);
    var name := GetnameOf(file);
    var b := BufferFile(file);
    assert b == cwd + name + ".bin";
    assert name == file[|cwd|..|cwd| + |name|];
    assert cwd + name == file[..|cwd| + |name|];
    assert |b| - 4 == |cwd| + |name|;
  }
}
