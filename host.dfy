/**
 * The parts of the device's operating system that the hotspot code
 * touches: configuration files, by path, and the `systemctl` commands it
 * runs. Reading a file that is missing, and errors from the file system or
 * from a command, are not part of this model.
 */
module HostSystem {
  import opened Text

  /** What writing each line with `fmt.Fprintln` produces: every line
      followed by a newline. */
  function Rendered(lines: seq<string>): string
  {
    if lines == [] then "" else Rendered(lines[..|lines| - 1]) + lines[|lines| - 1] + "\n"
  }

  /** The text the change tests compare a file against:
      `strings.Join(lines, "\n") + "\n"`. */
  function Expected(lines: seq<string>): string
  {
    Join(lines, "\n") + "\n"
  }

  /** For a non-empty list of lines, the written text is the text the
      change test expects. */
  lemma {:induction false} RenderedExpected(lines: seq<string>)
    requires lines != []
    ensures Rendered(lines) == Expected(lines)
  {
    var init := lines[..|lines| - 1];
    var last := lines[|lines| - 1];
    if init == [] {
      assert lines == [last];
    } else {
      RenderedExpected(init);
      JoinSnoc(init, last, "\n");
      assert init + [last] == lines;
    }
  }

  /** For no lines at all the two differ: nothing is written, while the
      change test expects a lone newline. */
  lemma EmptyRenderedDiffers()
    ensures Rendered([]) == "" && Expected([]) == "\n"
    ensures Rendered([]) != Expected([])
  {
  }

  /** Reading the written text back line by line gives the lines, then the
      empty piece after the final newline. */
  lemma {:induction false} RenderedSplit(lines: seq<string>, t: string)
    requires forall k :: 0 <= k < |lines| ==> '\n' !in lines[k]
    ensures Split(Rendered(lines) + t, '\n') == lines + Split(t, '\n')
  {
    if lines != [] {
      var init := lines[..|lines| - 1];
      var last := lines[|lines| - 1];
      var rest := last + ['\n'] + t;
      assert Rendered(lines) + t == Rendered(init) + rest;
      RenderedSplit(init, rest);
      assert '\n' !in last;
      SplitAppend(last, t, '\n');
      assert init + ([last] + Split(t, '\n')) == lines + Split(t, '\n');
    } else {
      assert Rendered(lines) + t == t;
    }
  }

  const DhcpConfPath := "/etc/dhcpcd.conf"
  const RestartDhcpcd := "systemctl restart dhcpcd"
  const StartDhcpcd := "systemctl start dhcpcd"

  /** The change test of `writeLines` and `setDHCPMode`: the file exists
      and holds exactly the joined lines and a final newline. */
  predicate UpToDate(files: map<string, string>, path: string, lines: seq<string>)
  {
    path in files && files[path] == Expected(lines)
  }

  /** Once a non-empty list of lines has been written, the file is up to
      date for them, so an immediate second call changes nothing. */
  lemma WrittenIsUpToDate(files: map<string, string>, path: string, lines: seq<string>)
    requires lines != []
    ensures UpToDate(files[path := Rendered(lines)], path, lines)
  {
    RenderedExpected(lines);
  }

  /** The device: its files and the service commands run so far. */
  class Host {
    var files: map<string, string>
    /** The `systemctl` commands run, in order. */
    var commands: seq<string>

    constructor (files: map<string, string>)
      ensures this.files == files && commands == []
    {
      this.files := files;
      commands := [];
    }

    /** Creates or truncates the file at `path` and writes each line with a
        newline (`creatConfigFile`, and the writing half of `writeLines`
        and `setDHCPMode`). */
    method WriteFile(path: string, lines: seq<string>)
      modifies this
      ensures files == old(files)[path := Rendered(lines)]
      ensures commands == old(commands)
    {
      var content := "";
      var i := 0;
      while i < |lines|
        invariant 0 <= i <= |lines|
        invariant content == Rendered(lines[..i])
      {
        assert lines[..i + 1][..i] == lines[..i];
        content := content + lines[i] + "\n";
        i := i + 1;
      }
      assert lines[..i] == lines;
      files := files[path := content];
    }

    /** Runs a service command. */
    method Run(command: string)
      modifies this
      ensures commands == old(commands) + [command]
      ensures files == old(files)
    {
      commands := commands + [command];
    }
  }
}
