/** The characters that byte constants stand for, and the limits that numbers set. */
module Characters {
  import O = Octets
  import Swar
  import C = Chunked
  import B = HeaderBlock
  import N = TrailerNames
  import M = HostMemo
  import V = IPv6Grammar
  import L = IPv6Literals
  import R = RequestStreams
  import T = Trailers
  import H = HostPool

  function Byte(c: char): Swar.byte { if c as int < 256 then c as int as Swar.byte else 0 }

  /** Marks in targets, queries and escapes. */
  lemma TargetMarks()
    ensures O.PERCENT == O.Code('%') && O.PLUS == O.Code('+') && O.SPACE == O.Code(' ') && O.SLASH == O.Code('/')
    ensures O.DOT == O.Code('.') && O.AMP == O.Code('&') && O.EQ == O.Code('=')
    ensures M.AT == O.Code('@') && M.QUESTION == O.Code('?') && M.HASH == O.Code('#') && M.COLON == O.Code(':')
    ensures V.COLON == O.Code(':') && L.LBRACKET == O.Code('[') && L.RBRACKET == O.Code(']')
    ensures M.HTTPS == [O.Code('h'), O.Code('t'), O.Code('t'), O.Code('p'), O.Code('s')]
  {
  }

  /** Marks in chunked bodies, in numbers and in header fields. */
  lemma MessageMarks()
    ensures C.CR == O.Code('\r') && C.LF == O.Code('\n') && C.SP == O.Code(' ') && C.TAB == O.Code('\t')
    ensures C.SEMI == O.Code(';')
    ensures B.CR == Byte('\r') && B.LF == Byte('\n') && B.SP == Byte(' ') && B.TAB == Byte('\t')
    ensures B.COLON == Byte(':') && N.DASH == Byte('-') && T.COMMA == Byte(',')
  {
  }

  /** Sizes have at most fifteen digits, a chunked body has length -1 and one up to the end of its
      connection -2; a connection may idle for ten seconds. */
  lemma Limits()
    ensures C.MaxHexChars == 15 && R.ChunkedLength == -1 && R.IdentityLength == -2
    ensures H.MaxIdle(0) == 10 * 1000 * 1000 * 1000
  {
  }

  lemma Letters1()
    ensures Byte('-') == 45 && Byte('a') == 97 && Byte('c') == 99 && Byte('d') == 100 && Byte('e') == 101
  {
  }

  lemma Letters2()
    ensures Byte('f') == 102 && Byte('g') == 103 && Byte('h') == 104 && Byte('i') == 105 && Byte('k') == 107
  {
  }

  lemma Letters3()
    ensures Byte('l') == 108 && Byte('m') == 109 && Byte('n') == 110 && Byte('o') == 111 && Byte('p') == 112
  {
  }

  lemma Letters4()
    ensures Byte('r') == 114 && Byte('s') == 115 && Byte('t') == 116 && Byte('u') == 117 && Byte('v') == 118
  {
  }

  lemma Letters5()
    ensures Byte('w') == 119 && Byte('x') == 120 && Byte('y') == 121 && Byte('z') == 122
  {
  }

  lemma Alphabet()
    ensures Byte('-') == 45 && Byte('a') == 97 && Byte('c') == 99 && Byte('d') == 100 && Byte('e') == 101
    ensures Byte('f') == 102 && Byte('g') == 103 && Byte('h') == 104 && Byte('i') == 105 && Byte('k') == 107
    ensures Byte('l') == 108 && Byte('m') == 109 && Byte('n') == 110 && Byte('o') == 111 && Byte('p') == 112
    ensures Byte('r') == 114 && Byte('s') == 115 && Byte('t') == 116 && Byte('u') == 117 && Byte('v') == 118
    ensures Byte('w') == 119 && Byte('x') == 120 && Byte('y') == 121 && Byte('z') == 122
  {
    hide Byte;
    Letters1();
    Letters2();
    Letters3();
    Letters4();
    Letters5();
  }

  lemma ForbiddenWords1()
    ensures N.Authorization() == [Byte('a'), Byte('u'), Byte('t'), Byte('h'), Byte('o'), Byte('r'), Byte('i'),
      Byte('z'), Byte('a'), Byte('t'), Byte('i'), Byte('o'), Byte('n')]
    ensures N.ContentDash() == [Byte('c'), Byte('o'), Byte('n'), Byte('t'), Byte('e'), Byte('n'), Byte('t'),
      Byte('-')]
    ensures N.EncodingWord() == [Byte('e'), Byte('n'), Byte('c'), Byte('o'), Byte('d'), Byte('i'), Byte('n'),
      Byte('g')]
    ensures N.LengthWord() == [Byte('l'), Byte('e'), Byte('n'), Byte('g'), Byte('t'), Byte('h')]
  {
    Alphabet();
    hide Byte;
  }

  lemma ForbiddenWords2()
    ensures N.TypeWord() == [Byte('t'), Byte('y'), Byte('p'), Byte('e')]
    ensures N.RangeWord() == [Byte('r'), Byte('a'), Byte('n'), Byte('g'), Byte('e')]
    ensures N.Connection() == [Byte('c'), Byte('o'), Byte('n'), Byte('n'), Byte('e'), Byte('c'), Byte('t'), Byte('i'),
      Byte('o'), Byte('n')]
    ensures N.Cookie() == [Byte('c'), Byte('o'), Byte('o'), Byte('k'), Byte('i'), Byte('e')]
  {
    Alphabet();
    hide Byte;
  }

  lemma ForbiddenWords3()
    ensures N.Expect() == [Byte('e'), Byte('x'), Byte('p'), Byte('e'), Byte('c'), Byte('t')]
    ensures N.Host() == [Byte('h'), Byte('o'), Byte('s'), Byte('t')]
    ensures N.KeepAlive() == [Byte('k'), Byte('e'), Byte('e'), Byte('p'), Byte('-'), Byte('a'), Byte('l'), Byte('i'),
      Byte('v'), Byte('e')]
    ensures N.Location() == [Byte('l'), Byte('o'), Byte('c'), Byte('a'), Byte('t'), Byte('i'), Byte('o'), Byte('n')]
  {
    Alphabet();
    hide Byte;
  }

  lemma ForbiddenWords4()
    ensures N.MaxForwards() == [Byte('m'), Byte('a'), Byte('x'), Byte('-'), Byte('f'), Byte('o'), Byte('r'),
      Byte('w'), Byte('a'), Byte('r'), Byte('d'), Byte('s')]
    ensures N.ProxyDash() == [Byte('p'), Byte('r'), Byte('o'), Byte('x'), Byte('y'), Byte('-')]
    ensures N.AuthenticateWord() == [Byte('a'), Byte('u'), Byte('t'), Byte('h'), Byte('e'), Byte('n'), Byte('t'),
      Byte('i'), Byte('c'), Byte('a'), Byte('t'), Byte('e')]
    ensures N.SetCookie() == [Byte('s'), Byte('e'), Byte('t'), Byte('-'), Byte('c'), Byte('o'), Byte('o'), Byte('k'),
      Byte('i'), Byte('e')]
  {
    Alphabet();
    hide Byte;
  }

  lemma ForbiddenWords5()
    ensures N.Te() == [Byte('t'), Byte('e')]
    ensures N.TrailerWord() == [Byte('t'), Byte('r'), Byte('a'), Byte('i'), Byte('l'), Byte('e'), Byte('r')]
    ensures N.TransferEncoding() == [Byte('t'), Byte('r'), Byte('a'), Byte('n'), Byte('s'), Byte('f'), Byte('e'),
      Byte('r'), Byte('-'), Byte('e'), Byte('n'), Byte('c'), Byte('o'), Byte('d'), Byte('i'), Byte('n'), Byte('g')]
    ensures N.WwwAuthenticate() == [Byte('w'), Byte('w'), Byte('w'), Byte('-'), Byte('a'), Byte('u'), Byte('t'),
      Byte('h'), Byte('e'), Byte('n'), Byte('t'), Byte('i'), Byte('c'), Byte('a'), Byte('t'), Byte('e')]
  {
    Alphabet();
    hide Byte;
  }

  lemma ForbiddenWords6()
    ensures N.XForwarded() == [Byte('x'), Byte('-'), Byte('f'), Byte('o'), Byte('r'), Byte('w'), Byte('a'), Byte('r'),
      Byte('d'), Byte('e'), Byte('d')]
    ensures N.XRealIp() == [Byte('x'), Byte('-'), Byte('r'), Byte('e'), Byte('a'), Byte('l'), Byte('-'), Byte('i'),
      Byte('p')]
  {
    Alphabet();
    hide Byte;
  }
}
