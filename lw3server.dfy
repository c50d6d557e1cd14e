/**
 * The first-generation LW3 server (src/lw3server.ts): its own copy of the
 * error-text table, the `%Ennn:` error header, a line handler that answers
 * every line with a syntax error, and the per-socket session table kept by
 * the connect and close handlers.
 */
module Lw3Server {
  import opened Strings
  import Noodle

  /** `Lw3Server.getErrorCodeString`: a switch over the enumeration members. */
  function ErrorCodeString(code: int): (r: string)
    ensures |r| > 0
  {
    match Noodle.MemberOf(code)
    case Some(Syntax) => "Syntax error"
    case Some(NotFound) => "Not exists"
    case Some(AlreadyExists) => "Already exists"
    case Some(InvalidValue) => "Invalid value"
    case Some(IllegalParamCount) => "Illegal parameter count"
    case Some(IllegalOperation) => "Illegal operation"
    case Some(AccessDenied) => "Access denied"
    case Some(Timeout) => "Timeout"
    case Some(CommandTooLong) => "Command too long"
    case Some(InternalError) => "Internal error"
    case Some(NotImplemented) => "Not implemented"
    case Some(NodeDisabled) => "Node disabled or standby mode active"
    case _ => "Unknown error"
  }

  /** The server's table and the one of src/noodle.ts give the same text for every number. */
  lemma ErrorTablesAgree(code: int)
    ensures ErrorCodeString(code) == Noodle.ErrorCodeString(code)
  {
    if 0 <= code <= 12 {
      assert Noodle.Number(Noodle.MemberOf(code).value) == code;
    }
  }

  /** `getErrorHeader`: `%E`, the last three characters of `"00"` + the code, `:`, the text. */
  function ErrorHeader(code: int): string {
    "%E" + LastChars("00" + IntToDecimal(code), 3) + ":" + ErrorCodeString(code)
  }

  /**
   * For a non-negative code the header carries three digits that read as the
   * code modulo 1000 (so the code itself, zero-padded, below 1000), then `:`
   * and the code's text.
   */
  lemma HeaderFormat(code: int)
    requires code >= 0
    ensures var h := ErrorHeader(code);
      |h| >= 6 && h[..2] == "%E" && h[5] == ':' && h[6..] == ErrorCodeString(code)
      && AllDigits(h[2..5]) && DecimalValue(h[2..5]) == code % 1000
  {
    LastThreeDigits(code);
    assert IntToDecimal(code) == NatToDecimal(code);
    HeaderShape(LastChars("00" + NatToDecimal(code), 3), ErrorCodeString(code));
  }

  lemma HeaderShape(t: string, text: string)
    requires |t| == 3
    ensures var h := "%E" + t + ":" + text;
      |h| >= 6 && h[..2] == "%E" && h[2..5] == t && h[5] == ':' && h[6..] == text
  {
    var h := "%E" + t + ":" + text;
    assert h == ("%E" + t + ":") + text;
    assert |"%E" + t + ":"| == 6;
  }

  /** Codes below 1000 appear in full. */
  lemma HeaderPadded(code: int)
    requires 0 <= code < 1000
    ensures var h := ErrorHeader(code); |h| >= 5 && AllDigits(h[2..5]) && DecimalValue(h[2..5]) == code
  {
    HeaderFormat(code);
    ModSmall(code);
  }

  /** Codes of 1000 and above lose their leading digits. */
  lemma HeaderTruncated(code: int)
    requires code >= 1000
    ensures var h := ErrorHeader(code); |h| >= 5 && AllDigits(h[2..5]) && DecimalValue(h[2..5]) == code % 1000 < code
  {
    HeaderFormat(code);
  }

  lemma ModSmall(n: int)
    requires 0 <= n < 1000
    ensures n % 1000 == n
  {
  }

  lemma SyntaxHeader()
    ensures ErrorHeader(Noodle.Number(Noodle.Syntax)) == "%E001:Syntax error"
  {
    SyntaxDigits();
    assert ErrorCodeString(1) == "Syntax error";
    HeaderText("001", "Syntax error");
  }

  lemma SyntaxDigits()
    ensures LastChars("00" + IntToDecimal(1), 3) == "001"
  {
    assert NatToDecimal(1) == "1";
    assert "00" + "1" == "001";
  }

  lemma HeaderText(t: string, text: string)
    requires t == "001" && text == "Syntax error"
    ensures "%E" + t + ":" + text == "%E001:Syntax error"
  {
  }

  /** A line is signed when its fifth character is `#`. */
  predicate Signed(msg: string) {
    |msg| >= 5 && msg[4] == '#'
  }

  /** The line a reply gives for a command text: always a syntax error. */
  function ErrorLine(cmd: string): (r: string)
    ensures r == "-E " + cmd + " %E001:Syntax error"
  {
    SyntaxHeader();
    "-E " + cmd + " " + ErrorHeader(Noodle.Number(Noodle.Syntax))
  }

  /** The reply `lineRcv` writes for one received line. */
  function StubReply(msg: string): string {
    if Signed(msg) then "{" + msg[..4] + "\n" + ErrorLine(msg[5..]) + "\n}\n"
    else ErrorLine(msg) + "\n"
  }

  /**
   * Read back line by line, the reply to a signed line is the opening brace
   * with the signature, the syntax error for the text after `#`, and the
   * closing brace; the reply to any other line is the syntax error for the
   * whole line. Either way it ends with a newline.
   */
  lemma StubReplyLines(msg: string)
    requires '\n' !in msg
    ensures Signed(msg) ==>
      SplitOn(StubReply(msg), '\n') == ["{" + msg[..4], ErrorLine(msg[5..]), "}", ""]
    ensures !Signed(msg) ==>
      SplitOn(StubReply(msg), '\n') == [ErrorLine(msg), ""]
  {
    if Signed(msg) {
      SignedReplyLines(msg);
    } else {
      PlainReplyLines(msg);
    }
  }

  lemma PlainReplyLines(msg: string)
    requires '\n' !in msg && !Signed(msg)
    ensures SplitOn(StubReply(msg), '\n') == [ErrorLine(msg), ""]
  {
    var e := ErrorLine(msg);
    ErrorLineSingle(msg);
    var lines := [e, ""];
    assert Join(lines, "\n") == e + "\n" by { assert lines[1..] == [""]; }
    LinesOf(lines);
  }

  lemma SignedReplyLines(msg: string)
    requires '\n' !in msg && Signed(msg)
    ensures SplitOn(StubReply(msg), '\n') == ["{" + msg[..4], ErrorLine(msg[5..]), "}", ""]
  {
    var a, b := "{" + msg[..4], ErrorLine(msg[5..]);
    assert '\n' !in msg[..4] && '\n' !in msg[5..] by {
      assert forall i :: 0 <= i < 4 ==> msg[..4][i] == msg[i];
      assert forall i :: 0 <= i < |msg| - 5 ==> msg[5..][i] == msg[i + 5];
    }
    assert '\n' !in a;
    ErrorLineSingle(msg[5..]);
    JoinFour(a, b);
    LinesOf([a, b, "}", ""]);
  }

  lemma JoinFour(a: string, b: string)
    ensures Join([a, b, "}", ""], "\n") == a + "\n" + b + "\n}\n"
  {
    var lines := [a, b, "}", ""];
    assert Join(lines[3..], "\n") == "";
    assert Join(lines[2..], "\n") == "}\n" by { assert lines[2..][1..] == lines[3..]; }
    assert Join(lines[1..], "\n") == b + "\n}\n" by { assert lines[1..][1..] == lines[2..]; }
  }

  lemma ErrorLineSingle(cmd: string)
    requires '\n' !in cmd
    ensures '\n' !in ErrorLine(cmd)
  {
    var head, tail := "-E ", " %E001:Syntax error";
    assert '\n' !in head && '\n' !in tail by { ErrorLineLiterals(head, tail); }
    assert ErrorLine(cmd) == head + cmd + tail;
  }

  lemma ErrorLineLiterals(head: string, tail: string)
    requires head == "-E " && tail == " %E001:Syntax error"
    ensures '\n' !in head && '\n' !in tail
  {
    assert forall i :: 0 <= i < |tail| ==> tail[i] != '\n';
  }

  lemma LinesOf(lines: seq<string>)
    requires |lines| >= 1
    requires forall i :: 0 <= i < |lines| ==> '\n' !in lines[i]
    ensures SplitOn(Join(lines, "\n"), '\n') == lines
  {
    assert "\n" == ['\n'];
    SplitOnJoin(lines, '\n');
  }

  /** The reply of `lineRcv`, built piece by piece as the handler does. */
  method Reply(msg: string) returns (response: string)
    ensures response == StubReply(msg)
  {
    response := "";
    var line := msg;
    var signature: bool;
    if |line| > 4 && line[4] == '#' {
      signature := true;
      response := "{" + Substring(line, 0, 4) + "\n";
      line := SubstringFrom(line, 5);
      assert response == "{" + msg[..4] + "\n" && line == msg[5..];
    } else {
      signature := false;
    }
    response := response + ErrorLine(line);
    if signature {
      response := response + "\n}\n";
    } else {
      assert response == ErrorLine(msg);
      response := response + "\n";
    }
  }

  /** What the server remembers about one connected socket. */
  datatype Session = Session(openedPaths: seq<string>, authenticated: bool, socketId: int)

  class Lw3Server {
    /** `sessions`, keyed by socket id. */
    var sessions: map<int, Session>
    /** Every `server.write(socketId, text)` so far, in order. */
    var written: seq<(int, string)>

    /** Each session is filed under its own socket id. */
    predicate Valid()
      reads this
    {
      forall id :: id in sessions ==> sessions[id].socketId == id
    }

    constructor()
      ensures Valid()
      ensures sessions == map[] && written == []
    {
      sessions := map[];
      written := [];
    }

    /** The `connect` handler: a fresh, empty session for the socket. */
    method Connect(socketId: int)
      requires Valid()
      modifies this
      ensures Valid()
      ensures sessions == old(sessions)[socketId := Session([], false, socketId)]
      ensures written == old(written)
    {
      sessions := sessions[socketId := Session([], false, socketId)];
    }

    /** The `close` handler: that socket's session, and only it, is gone. */
    method Close(socketId: int)
      requires Valid()
      modifies this
      ensures Valid()
      ensures sessions == old(sessions) - {socketId}
      ensures written == old(written)
    {
      sessions := sessions - {socketId};
    }

    /** `lineRcv`: the reply is built and written to the socket. */
    method LineRcv(socketId: int, msg: string)
      modifies this`written
      ensures written == old(written) + [(socketId, StubReply(msg))]
    {
      var response := Reply(msg);
      written := written + [(socketId, response)];
    }
  }
}
