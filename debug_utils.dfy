/**
  * When the in-page debug console is shown (src/utils/debugUtils.ts). The
  * page location is an input: the value of the `debug` query parameter, if
  * there is one, and the host name. A host name from a parsed URL is ASCII
  * (international names arrive in their punycode form), so lower-casing it
  * is ASCII lower-casing.
  */
module DebugUtils {
  import opened Wrappers
  import opened Strings

  /** `shouldShowDebugConsole` */
  predicate ShouldShowDebugConsole(debugParam: Option<string>, hostname: string) {
    if debugParam == Some("true") || debugParam == Some("1") then true
    else if Contains(AsciiLower(hostname), "preview") then true
    else false
  }

  /** Away from a preview host the parameter decides, and only "true" and "1", spelled
      exactly so, turn the console on. */
  lemma ParameterDecides(p: Option<string>, hostname: string)
    requires !Contains(AsciiLower(hostname), "preview")
    ensures ShouldShowDebugConsole(p, hostname) <==> p == Some("true") || p == Some("1")
    ensures !ShouldShowDebugConsole(Some("TRUE"), hostname)
    ensures !ShouldShowDebugConsole(Some("yes"), hostname)
    ensures !ShouldShowDebugConsole(None, hostname)
  {
    assert "TRUE" != "true" by { assert "TRUE"[0] != "true"[0]; }
  }

  lemma LowerOfUpperChars(h: string)
    ensures AsciiLower(AsciiUpper(h)) == AsciiLower(h)
  {
    forall i | 0 <= i < |h| ensures AsciiLower(AsciiUpper(h))[i] == AsciiLower(h)[i] {
      var c := h[i];
      assert AsciiUpper(h)[i] == UpperChar(c);
    }
  }

  /** On a preview host the console is shown whatever the parameter, and the host name's
      case does not matter. */
  lemma PreviewHostShows(p: Option<string>, hostname: string)
    requires Contains(AsciiLower(hostname), "preview")
    ensures ShouldShowDebugConsole(p, hostname)
    ensures ShouldShowDebugConsole(p, AsciiUpper(hostname))
  {
    LowerOfUpperChars(hostname);
  }
}
