/** The shell and platform helpers of `setup.py`: which shell the `SHELL`
    variable names, the command that activates the virtual environment, and
    the path of its interpreter. The variable's value and whether the
    platform is `win32` are inputs. */
module Setup {
  import opened Text

  datatype Shell = Fish | Bash | Zsh | Csh | Unknown

  /** `detect_shell` as written: the test for `sh` comes before the tests
      for `zsh`, `csh` and `tcsh`. */
  function DetectShell(shell: string): (r: Shell)
    ensures r == Fish <==> Contains(shell, "fish")
    ensures r == Bash <==> !Contains(shell, "fish") && (Contains(shell, "bash") || Contains(shell, "sh"))
  {
    if Contains(shell, "fish") then Fish
    else if Contains(shell, "bash") || Contains(shell, "sh") then Bash
    else if Contains(shell, "zsh") then Zsh
    else if Contains(shell, "csh") || Contains(shell, "tcsh") then Csh
    else Unknown
  }

  /** `zsh`, `csh` and `tcsh` all contain `sh`. */
  lemma ShellNamesContainSh(shell: string)
    ensures Contains(shell, "zsh") ==> Contains(shell, "sh")
    ensures Contains(shell, "csh") ==> Contains(shell, "sh")
    ensures Contains(shell, "tcsh") ==> Contains(shell, "sh")
  {
    assert OccursAt("zsh", "sh", 1);
    assert OccursAt("csh", "sh", 1);
    assert OccursAt("tcsh", "sh", 2);
    if Contains(shell, "zsh") {
      ContainsTransitive(shell, "zsh", "sh");
    }
    if Contains(shell, "csh") {
      ContainsTransitive(shell, "csh", "sh");
    }
    if Contains(shell, "tcsh") {
      ContainsTransitive(shell, "tcsh", "sh");
    }
  }

  /** As written, the `zsh` and `csh` answers are unreachable: whatever the
      variable holds, the result is `fish`, `bash` or `unknown`. */
  lemma DetectShellNeverZshOrCsh(shell: string)
    ensures DetectShell(shell) != Zsh && DetectShell(shell) != Csh
    ensures DetectShell(shell) == Unknown <==> !Contains(shell, "sh")
  {
    ShellNamesContainSh(shell);
    assert OccursAt("fish", "sh", 2);
    assert OccursAt("bash", "sh", 2);
    if Contains(shell, "fish") {
      ContainsTransitive(shell, "fish", "sh");
    }
    if Contains(shell, "bash") {
      ContainsTransitive(shell, "bash", "sh");
    }
  }

  /** A Z shell is reported as bash. */
  lemma DetectShellZshExample()
    ensures DetectShell("/bin/zsh") == Bash
    ensures DetectShellIntended("/bin/zsh") == Zsh
  {
    assert OccursAt("/bin/zsh", "sh", 6);
    assert OccursAt("/bin/zsh", "zsh", 5);
    Absent("/bin/zsh", "fish");
  }

  /** A string lacking the first character of `sub` does not contain `sub`. */
  lemma Absent(s: string, sub: string)
    requires |sub| > 0 && sub[0] !in s
    ensures !Contains(s, sub)
  {
    forall i | 0 <= i <= |s| - |sub| ensures !OccursAt(s, sub, i) {
      assert s[i..i + |sub|][0] == s[i];
    }
  }

  /** `detect_shell` as its branches evidently intend: the specific shells
      are checked before the generic `sh`. */
  function DetectShellIntended(shell: string): (r: Shell)
    ensures r == Fish <==> Contains(shell, "fish")
    ensures r == Zsh <==> !Contains(shell, "fish") && Contains(shell, "zsh")
    ensures r == Csh <==> !Contains(shell, "fish") && !Contains(shell, "zsh") && (Contains(shell, "csh") || Contains(shell, "tcsh"))
  {
    if Contains(shell, "fish") then Fish
    else if Contains(shell, "zsh") then Zsh
    else if Contains(shell, "csh") || Contains(shell, "tcsh") then Csh
    else if Contains(shell, "bash") || Contains(shell, "sh") then Bash
    else Unknown
  }

  /** The intended detector answers every shell, and it agrees with the
      written one everywhere except that the written one calls a Z shell or a
      C shell bash. */
  lemma DetectShellIntendedAgrees(shell: string)
    ensures DetectShellIntended(shell) == Unknown <==> !Contains(shell, "sh")
    ensures DetectShellIntended(shell) in {Fish, Bash, Unknown} ==> DetectShell(shell) == DetectShellIntended(shell)
    ensures DetectShellIntended(shell) in {Zsh, Csh} ==> DetectShell(shell) == Bash
  {
    DetectShellNeverZshOrCsh(shell);
    ShellNamesContainSh(shell);
  }

  // ---------------------------------------------------------------- virtual environment

  /** The directory of the environment's scripts on the platform. */
  function ScriptsDir(win32: bool): string {
    if win32 then "Scripts" else "bin"
  }

  /** `get_venv_python`: the interpreter inside the environment's scripts
      directory (see VenvLayoutAgrees). */
  function VenvPython(win32: bool): string
  {
    if win32 then "venv/Scripts/python.exe" else "venv/bin/python"
  }

  function ActivationFor(win32: bool, shell: Shell): (r: string)
  {
    if win32 then "venv\\Scripts\\activate"
    else if shell == Fish then "source venv/bin/activate.fish"
    else if shell == Csh then "source venv/bin/activate.csh"
    else "source venv/bin/activate"
  }

  /** `get_activation_command`, on the shell `detect_shell` reports. */
  function ActivationCommand(win32: bool, shell: string): (r: string)
    ensures r != "source venv/bin/activate.csh"
  {
    DetectShellNeverZshOrCsh(shell);
    ActivationFor(win32, DetectShell(shell))
  }

  /** On win32 the command ignores the shell; elsewhere fish gets its own
      script and every other shell the plain one: the C shell script is
      never chosen, because the C shell is never detected. */
  lemma ActivationCommandCases(win32: bool, shell: string)
    ensures win32 ==> ActivationCommand(win32, shell) == "venv\\Scripts\\activate"
    ensures !win32 && Contains(shell, "fish") ==> ActivationCommand(win32, shell) == "source venv/bin/activate.fish"
    ensures !win32 && !Contains(shell, "fish") ==> ActivationCommand(win32, shell) == "source venv/bin/activate"
    ensures ActivationCommand(win32, shell) != "source venv/bin/activate.csh"
  {
    DetectShellNeverZshOrCsh(shell);
  }

  /** With the intended detector a C shell gets its own script. */
  lemma ActivationIntendedCsh(shell: string)
    requires DetectShellIntended(shell) == Csh
    ensures ActivationFor(false, DetectShellIntended(shell)) == "source venv/bin/activate.csh"
    ensures ActivationCommand(false, shell) == "source venv/bin/activate"
  {
    DetectShellIntendedAgrees(shell);
  }

  /** The activation script and the interpreter live in the same directory
      of the environment on each platform. */
  lemma VenvLayoutAgrees(win32: bool, shell: Shell)
    ensures Contains(ActivationFor(win32, shell), ScriptsDir(win32))
    ensures Contains(VenvPython(win32), ScriptsDir(win32))
  {
    var a := ActivationFor(win32, shell);
    if win32 {
      assert OccursAt(a, "Scripts", 5);
      assert OccursAt(VenvPython(win32), "Scripts", 5);
    } else {
      assert OccursAt(a, "bin", 12);
      assert OccursAt(VenvPython(win32), "bin", 5);
    }
  }
}
