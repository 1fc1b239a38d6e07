/** The server inside a bot's pod: it runs the bot's program once a turn and answers with
    what the program printed. */
module TurnServer {
  import opened Boards
  import opened PyText
  import opened MatchRunner

  /** How a run of the bot's program ends; its exit code does not matter. */
  datatype Process = Exited(stdout: string, stderr: string) | Expired | Broken(text: string)

  function RunBot(p: Process): Reply {
    match p
    case Expired => Response(None, Some("timeout after 10s"))
    case Broken(text) => Response(None, Some("runtime error: " + text))
    case Exited(stdout, stderr) =>
      var output, errors := Strip(stdout), Strip(stderr);
      if output != "" then Response(Some(output), None)
      else Response(None, Some("invalid output: empty response" + if errors != "" then ": " + errors else ""))
  }

  /** The answer holds either a board text or an error. It is `text` exactly if the program
      printed that, with nothing but white space around it. */
  lemma ServesWhatWasPrinted(p: Process, text: string)
    ensures RunBot(p).Response? && (RunBot(p).board.Some? <==> RunBot(p).error.None?)
    ensures RunBot(p).error.Some? ==> RunBot(p).error.value != ""
    ensures RunBot(p).board == Some(text) <==>
      && text != "" && Trimmed(text) && p.Exited?
      && exists pre, post :: Blank(pre) && Blank(post) && p.stdout == pre + text + post
  {
    if p.Exited? {
      var pre, post := StripSplits(p.stdout);
      if pre', post' :| Blank(pre') && Blank(post') && p.stdout == pre' + text + post' && Trimmed(text) {
        StripIsCore(pre', text, post');
      }
    }
  }

  lemma TailOf(head: string, tail: string, tail': string)
    ensures head + tail == head + tail' <==> tail == tail'
  {
    assert (head + tail)[|head|..] == tail && (head + tail')[|head|..] == tail';
  }

  /** Each error is given exactly in its case. */
  lemma ErrorsAreNamed(p: Process, text: string)
    ensures RunBot(p).error == Some("timeout after 10s") <==> p.Expired?
    ensures RunBot(p).error == Some("runtime error: " + text) <==> p == Broken(text)
    ensures RunBot(p).error == Some("invalid output: empty response") <==> p.Exited? && Blank(p.stdout) && Blank(p.stderr)
  {
    assert "timeout after 10s"[0] == 't' && ("runtime error: " + text)[0] == 'r';
    match p {
      case Expired =>
      case Broken(other) =>
        TailOf("runtime error: ", other, text);
        assert ("runtime error: " + other)[0] == 'r';
      case Exited(stdout, stderr) =>
        BlankIffNothingLeft(stdout);
        BlankIffNothingLeft(stderr);
        var tail := if Strip(stderr) != "" then ": " + Strip(stderr) else "";
        assert ("invalid output: empty response" + tail)[0] == 'i';
        TailOf("invalid output: empty response", tail, "");
        assert "invalid output: empty response" + "" == "invalid output: empty response";
    }
  }

  lemma BlankIffNothingLeft(s: string)
    ensures Strip(s) == "" <==> Blank(s)
  {
    var pre, post := StripSplits(s);
    if Blank(s) {
      assert s == s + "" + "";
      StripIsCore(s, "", "");
    } else {
      assert s == pre + Strip(s) + post;
      assert Strip(s) == "" ==> Blank(pre + post);
    }
  }
}
