/**
 * `OSUtils`: the platform tests behind the choice of MariaDB binaries. Each
 * is a function of the `os.name` (or `os.arch`) system property, which the
 * class lower-cases before testing for substrings.
 */
module OSUtils {
  import opened JavaLang

  predicate IsWindows(osName: string)
  {
    Contains(LowerCase(osName), "win")
  }

  predicate IsMac(osName: string)
  {
    Contains(LowerCase(osName), "mac")
  }

  predicate IsLinux(osName: string)
  {
    var os := LowerCase(osName);
    Contains(os, "linux") || Contains(os, "nix") || Contains(os, "nux")
  }

  predicate IsUnix(osName: string)
  {
    IsLinux(osName) || IsMac(osName)
  }

  /** `getOSName`: the platform name used in MariaDB's file names. */
  function OSName(osName: string): (r: string)
    ensures r in {"winx64", "macos", "linux", "unknown"}
    ensures r == "winx64" <==> IsWindows(osName)
    ensures r == "macos" <==> !IsWindows(osName) && IsMac(osName)
    ensures r == "linux" <==> !IsWindows(osName) && !IsMac(osName) && IsLinux(osName)
    ensures r == "unknown" <==> !IsWindows(osName) && !IsMac(osName) && !IsLinux(osName)
  {
    if IsWindows(osName) then "winx64"
    else if IsMac(osName) then "macos"
    else if IsLinux(osName) then "linux"
    else "unknown"
  }

  /** `getArchitecture`: "64" is tested before "86", and "86" before "arm". */
  function Architecture(osArch: string): (r: string)
    ensures r in {"x64", "x86", "arm", "unknown"}
    ensures r == "x64" <==> Contains(LowerCase(osArch), "64")
    ensures r == "x86" <==> !Contains(LowerCase(osArch), "64") && Contains(LowerCase(osArch), "86")
    ensures r == "arm" <==>
      !Contains(LowerCase(osArch), "64") && !Contains(LowerCase(osArch), "86") && Contains(LowerCase(osArch), "arm")
  {
    var arch := LowerCase(osArch);
    if Contains(arch, "64") then "x64"
    else if Contains(arch, "86") then "x86"
    else if Contains(arch, "arm") then "arm"
    else "unknown"
  }

  /** `getBinarySuffix`: the executable suffix. */
  function BinarySuffix(osName: string): (r: string)
    ensures r == ".exe" <==> IsWindows(osName)
    ensures r == "" <==> !IsWindows(osName)
  {
    if IsWindows(osName) then ".exe" else ""
  }

  /** A platform other than Windows is Unix exactly when it has a known name. */
  lemma UnixIsMacOrLinux(osName: string)
    requires !IsWindows(osName)
    ensures IsUnix(osName) <==> OSName(osName) in {"macos", "linux"}
  {
  }

  lemma LowerCaseOfUpperCase(s: string)
    ensures LowerCase(UpperCase(s)) == LowerCase(s)
  {
    forall i | 0 <= i < |s|
      ensures LowerCase(UpperCase(s))[i] == LowerCase(s)[i]
    {
      var c := s[i];
      if IsAsciiLower(c) {
        assert ToUpperChar(c) as int == c as int - 32;
      }
    }
  }

  /** The tests ignore case: an upper-cased property classifies alike. */
  lemma ClassificationIgnoresCase(name: string)
    ensures OSName(UpperCase(name)) == OSName(name)
    ensures IsUnix(UpperCase(name)) == IsUnix(name)
    ensures BinarySuffix(UpperCase(name)) == BinarySuffix(name)
    ensures Architecture(UpperCase(name)) == Architecture(name)
  {
    LowerCaseOfUpperCase(name);
  }

  lemma OccursContains(s: string, t: string, i: int)
    requires OccursAt(s, t, i)
    ensures Contains(s, t)
  {
    ContainsOccurs(s, t);
  }

  /**
   * Substring tests, not names: "x86_64" and "aarch64" both contain "64",
   * so both are reported as x64.
   */
  lemma SixtyFourBitArchitectures()
    ensures Architecture("x86_64") == "x64"
    ensures Architecture("amd64") == "x64"
    ensures Architecture("aarch64") == "x64"
  {
    assert LowerCase("x86_64") == "x86_64";
    OccursContains("x86_64", "64", 4);
    assert LowerCase("amd64") == "amd64";
    OccursContains("amd64", "64", 3);
    assert LowerCase("aarch64") == "aarch64";
    OccursContains("aarch64", "64", 5);
  }

  /** The usual `os.name` values of Windows and Linux JVMs. */
  lemma KnownPlatforms()
    ensures OSName("Windows 10") == "winx64" && BinarySuffix("Windows 10") == ".exe"
    ensures IsLinux("Linux") && IsUnix("Linux")
  {
    assert LowerCase("Windows 10") == "windows 10";
    OccursContains("windows 10", "win", 0);
    assert LowerCase("Linux") == "linux";
    OccursContains("linux", "linux", 0);
  }
}
