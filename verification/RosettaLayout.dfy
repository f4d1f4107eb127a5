/** The emitted text is the layout of the program it stands for. */
module RosettaLayout {
  import opened Strings
  import opened Decimal
  import opened SlaSyntax

  // ----- lines, blocks and declarations as texts -----

  /** The statement is laid out as `line`, whatever follows. */
  ghost predicate IsLine(s: Stmt, depth: nat, line: string) {
    forall k :: PrintStmt(s, depth, k) == line + k
  }

  /** `head` and the statements make up `text`, whatever follows. */
  ghost predicate Opens(head: string, ss: seq<Stmt>, depth: nat, text: string) {
    forall k :: head + PrintBlock(ss, depth, k) == text + k
  }

  ghost predicate IsDecl(d: Decl, text: string) {
    forall k :: PrintDecl(d, k) == text + k
  }

  ghost predicate IsExpr(e: Expr, text: string) {
    forall k :: PrintExpr(e, k) == text + k
  }

  lemma {:induction false} BlockAppend(ss: seq<Stmt>, ts: seq<Stmt>, depth: nat, k: string)
    ensures PrintBlock(ss + ts, depth, k) == PrintBlock(ss, depth, PrintBlock(ts, depth, k))
  {
    if ss == [] {
      assert ss + ts == ts;
    } else {
      assert (ss + ts)[1..] == ss[1..] + ts;
      BlockAppend(ss[1..], ts, depth, k);
    }
  }

  lemma Start(head: string, depth: nat)
    ensures Opens(head, [], depth, head)
  {
  }

  lemma More(head: string, ss: seq<Stmt>, depth: nat, text: string, s: Stmt, line: string)
    requires Opens(head, ss, depth, text) && IsLine(s, depth, line)
    ensures Opens(head, ss + [s], depth, text + line)
  {
    forall k ensures head + PrintBlock(ss + [s], depth, k) == text + line + k {
      BlockAppend(ss, [s], depth, k);
      assert PrintBlock([s], depth, k) == PrintStmt(s, depth, k);
      assert text + (line + k) == text + line + k;
    }
  }

  lemma Indents()
    ensures Indent(4) == "    " && Indent(8) == "        "
  {
  }

  // ----- expressions -----

  lemma NumText(n: nat)
    ensures IsExpr(Num(n), Print(n))
  {
  }

  lemma VarText(x: string)
    ensures IsExpr(Var(x), x)
  {
  }

  lemma BinText(op: Op, l: Expr, lt: string, r: Expr, rt: string)
    requires IsExpr(l, lt) && IsExpr(r, rt)
    ensures IsExpr(Bin(op, l, r), lt + " " + op.Text() + " " + rt)
  {
    forall k ensures PrintExpr(Bin(op, l, r), k) == lt + " " + op.Text() + " " + rt + k {
      var tail := rt + k;
      assert lt + (" " + (op.Text() + (" " + tail))) == lt + " " + op.Text() + " " + tail;
      assert lt + " " + op.Text() + " " + tail == lt + " " + op.Text() + " " + rt + k;
    }
  }

  lemma GroupText(e: Expr, t: string)
    requires IsExpr(e, t)
    ensures IsExpr(Group(e), "(" + t + ")")
  {
    forall k ensures PrintExpr(Group(e), k) == "(" + t + ")" + k {
      assert "(" + (t + (")" + k)) == "(" + t + ")" + k;
    }
  }

  lemma Call0Text(f: string)
    ensures IsExpr(Call(f, []), f + "()")
  {
    forall k ensures PrintExpr(Call(f, []), k) == f + "()" + k {
      assert f + ("(" + (")" + k)) == f + "()" + k;
    }
  }

  lemma Call1Text(f: string, a: Expr, t: string)
    requires IsExpr(a, t)
    ensures IsExpr(Call(f, [a]), f + "(" + t + ")")
  {
    forall k ensures PrintExpr(Call(f, [a]), k) == f + "(" + t + ")" + k {
      assert f + ("(" + (t + (")" + k))) == f + "(" + t + ")" + k;
    }
  }

  lemma Call2Parts(f: string, t: string, u: string, k: string)
    ensures f + ("(" + (t + ("," + (" " + (u + (")" + k)))))) == f + "(" + t + ", " + u + ")" + k
  {
    var tail := u + (")" + k);
    assert t + ("," + (" " + tail)) == t + ", " + tail;
    assert f + ("(" + (t + ", " + tail)) == f + "(" + t + ", " + tail;
    assert f + "(" + t + ", " + tail == f + "(" + t + ", " + u + ")" + k;
  }

  lemma Call2Text(f: string, a: Expr, t: string, b: Expr, u: string)
    requires IsExpr(a, t) && IsExpr(b, u)
    ensures IsExpr(Call(f, [a, b]), f + "(" + t + ", " + u + ")")
  {
    forall k ensures PrintExpr(Call(f, [a, b]), k) == f + "(" + t + ", " + u + ")" + k {
      assert [a, b][1..] == [b];
      assert PrintArgs([b], ")" + k) == u + (")" + k);
      Call2Parts(f, t, u, k);
    }
  }

  // ----- statements -----

  lemma Tail(a: string, t: string, k: string)
    ensures a + (t + (";" + ("\n" + k))) == a + t + ";\n" + k
  {
    assert ";" + ("\n" + k) == ";\n" + k;
  }

  lemma LetLine(head: string, x: string, e: Expr, t: string)
    requires IsExpr(e, t) && head == "    let " + x + " = "
    ensures IsLine(Let(x, e), 4, head + t + ";\n")
  {
    forall k ensures PrintStmt(Let(x, e), 4, k) == head + t + ";\n" + k {
      Indents();
      var tail := t + (";" + ("\n" + k));
      assert " " + ("=" + (" " + tail)) == " = " + tail;
      assert "let" + (" " + (x + (" = " + tail))) == "let " + x + " = " + tail;
      assert "    " + ("let " + x + " = " + tail) == head + tail;
      Tail(head, t, k);
    }
  }

  lemma AssignLine(head: string, x: string, e: Expr, t: string)
    requires IsExpr(e, t) && head == "        " + x + " = "
    ensures IsLine(Assign(x, e), 8, head + t + ";\n")
  {
    forall k ensures PrintStmt(Assign(x, e), 8, k) == head + t + ";\n" + k {
      Indents();
      var tail := t + (";" + ("\n" + k));
      assert " " + ("=" + (" " + tail)) == " = " + tail;
      assert "        " + (x + (" = " + tail)) == head + tail;
      Tail(head, t, k);
    }
  }

  lemma ReturnLine(head: string, depth: nat, e: Expr, t: string)
    requires IsExpr(e, t) && head == Indent(depth) + "return "
    ensures IsLine(Return(e), depth, head + t + ";\n")
  {
    forall k ensures PrintStmt(Return(e), depth, k) == head + t + ";\n" + k {
      var tail := t + (";" + ("\n" + k));
      assert Indent(depth) + ("return" + (" " + tail)) == head + tail;
      Tail(head, t, k);
    }
  }

  lemma DoLine(e: Expr, t: string, depth: nat, head: string)
    requires IsExpr(e, t) && head == Indent(depth)
    ensures IsLine(Do(e), depth, head + t + ";\n")
  {
    forall k ensures PrintStmt(Do(e), depth, k) == head + t + ";\n" + k {
      Tail(head, t, k);
    }
  }

  lemma Brace(k: string)
    ensures " " + ("{" + ("\n" + k)) == " {\n" + k
    ensures "}" + ("\n" + k) == "}\n" + k
    ensures "}" + (";" + ("\n" + k)) == "};\n" + k
  {
    assert ";" + ("\n" + k) == ";\n" + k;
  }

  lemma ForLines(x: string, lo: Expr, a: string, hi: Expr, b: string, body: seq<Stmt>, inner: string)
    requires IsExpr(lo, a) && IsExpr(hi, b)
    requires Opens("    for " + x + " in " + a + ".." + b + " {\n", body, 8, inner)
    ensures IsLine(For(x, lo, hi, body), 4, inner + "    }\n")
  {
    forall k ensures PrintStmt(For(x, lo, hi, body), 4, k) == inner + "    }\n" + k {
      ForText(x, lo, a, hi, b, body, k);
      Closes(k);
      Assoc(inner, "    }\n", k);
    }
  }

  lemma ForText(x: string, lo: Expr, a: string, hi: Expr, b: string, body: seq<Stmt>, k: string)
    requires IsExpr(lo, a) && IsExpr(hi, b)
    ensures PrintStmt(For(x, lo, hi, body), 4, k)
         == "    for " + x + " in " + a + ".." + b + " {\n" + PrintBlock(body, 8, "    " + ("}" + ("\n" + k)))
  {
    Indents();
    ForHead(x, a, b, PrintBlock(body, 8, "    " + ("}" + ("\n" + k))));
  }

  lemma Closes(k: string)
    ensures "    " + ("}" + ("\n" + k)) == "    }\n" + k
    ensures "    " + ("}" + (";" + ("\n" + k))) == "    };\n" + k
  {
    Brace(k);
    assert "    " + ("}\n" + k) == "    }\n" + k;
    assert "    " + ("};\n" + k) == "    };\n" + k;
  }

  lemma ForHead(x: string, a: string, b: string, block: string)
    ensures "    " + ("for" + (" " + (x + (" " + ("in" + (" " + (a + (".." + (b + (" " + ("{" + ("\n" + block))))))))))))
         == "    for " + x + " in " + a + ".." + b + " {\n" + block
  {
    Brace(block);
    var open := b + (" {\n" + block);
    var range := a + (".." + open);
    assert "for" + (" " + (x + (" " + ("in" + (" " + range))))) == "for " + x + " in " + range;
    assert "    " + ("for " + x + " in " + range) == "    for " + x + " in " + range;
    assert "    for " + x + " in " + range == "    for " + x + " in " + a + ".." + open;
  }

  lemma IfLines(c: Expr, t: string, then_: seq<Stmt>, inner: string)
    requires IsExpr(c, t) && Opens("    if " + t + " {\n", then_, 8, inner)
    ensures IsLine(If(c, then_, [], false), 4, inner + "    };\n")
  {
    forall k ensures PrintStmt(If(c, then_, [], false), 4, k) == inner + "    };\n" + k {
      IfText(c, t, then_, k);
      Closes(k);
      Assoc(inner, "    };\n", k);
    }
  }

  lemma IfText(c: Expr, t: string, then_: seq<Stmt>, k: string)
    requires IsExpr(c, t)
    ensures PrintStmt(If(c, then_, [], false), 4, k)
         == "    if " + t + " {\n" + PrintBlock(then_, 8, "    " + ("}" + (";" + ("\n" + k))))
  {
    Indents();
    IfHead(t, PrintBlock(then_, 8, "    " + ("}" + (";" + ("\n" + k)))));
  }

  lemma IfHead(t: string, block: string)
    ensures "    " + ("if" + (" " + (t + (" " + ("{" + ("\n" + block)))))) == "    if " + t + " {\n" + block
  {
    Brace(block);
    assert "    " + ("if" + (" " + (t + (" {\n" + block)))) == "    if " + (t + (" {\n" + block));
  }

  lemma IfElseLines(c: Expr, t: string, then_: seq<Stmt>, inner: string, else_: seq<Stmt>, outer: string)
    requires IsExpr(c, t) && Opens("    if " + t + " {\n", then_, 8, inner)
    requires Opens(inner + "    } else {\n", else_, 8, outer)
    ensures IsLine(If(c, then_, else_, true), 4, outer + "    };\n")
  {
    forall k ensures PrintStmt(If(c, then_, else_, true), 4, k) == outer + "    };\n" + k {
      var block := PrintBlock(else_, 8, "    " + ("}" + (";" + ("\n" + k))));
      IfElseText(c, t, then_, else_, k);
      Assoc(inner, "    } else {\n", block);
      Closes(k);
      Assoc(outer, "    };\n", k);
    }
  }

  lemma IfElseText(c: Expr, t: string, then_: seq<Stmt>, else_: seq<Stmt>, k: string)
    requires IsExpr(c, t)
    ensures PrintStmt(If(c, then_, else_, true), 4, k)
         == "    if " + t + " {\n"
            + PrintBlock(then_, 8, "    } else {\n" + PrintBlock(else_, 8, "    " + ("}" + (";" + ("\n" + k)))))
  {
    Indents();
    var block := PrintBlock(else_, 8, "    " + ("}" + (";" + ("\n" + k))));
    ElseOpens(block);
    assert PrintElse(else_, 4, ";" + ("\n" + k)) == " " + ("else" + (" " + ("{" + ("\n" + block))));
    IfHead(t, PrintBlock(then_, 8, "    } else {\n" + block));
  }

  lemma ElseOpens(block: string)
    ensures "    " + ("}" + (" " + ("else" + (" " + ("{" + ("\n" + block)))))) == "    } else {\n" + block
  {
    Brace(block);
    assert "}" + (" " + ("else" + (" {\n" + block))) == "} else {\n" + block;
  }

  // ----- declarations -----

  lemma FnHead(f: string, params: seq<string>, t: string, block: string)
    requires forall k :: PrintParams(params, k) == t + k
    ensures "fn" + (" " + (f + ("(" + PrintParams(params, ")" + (" " + ("->" + (" " + ("int" + (" " + ("{" + ("\n" + block)))))))))))
         == "fn " + f + "(" + t + ") -> int {\n" + block
  {
    Brace(block);
    var open := " {\n" + block;
    var result := ")" + (" " + ("->" + (" " + ("int" + open))));
    assert "->" + (" " + ("int" + open)) == "-> int {\n" + block;
    assert result == ") -> int {\n" + block;
    assert "fn" + (" " + (f + ("(" + (t + result)))) == "fn " + f + "(" + t + result;
  }

  lemma FnText(f: string, params: seq<string>, t: string, body: seq<Stmt>, text: string)
    requires forall k :: PrintParams(params, k) == t + k
    requires Opens("fn " + f + "(" + t + ") -> int {\n", body, 4, text)
    ensures IsDecl(Fn(f, params, body, false), text + "}\n")
    ensures IsDecl(Fn(f, params, body, true), text + "};\n")
  {
    forall k ensures PrintDecl(Fn(f, params, body, false), k) == text + "}\n" + k {
      Brace(k);
      FnHead(f, params, t, PrintBlock(body, 4, "}\n" + k));
      assert text + ("}\n" + k) == text + "}\n" + k;
    }
    forall k ensures PrintDecl(Fn(f, params, body, true), k) == text + "};\n" + k {
      Brace(k);
      FnHead(f, params, t, PrintBlock(body, 4, "};\n" + k));
      assert text + ("};\n" + k) == text + "};\n" + k;
    }
  }

  /** A function without parameters. */
  lemma PlainFnText(f: string, body: seq<Stmt>, text: string)
    requires Opens("fn " + f + "() -> int {\n", body, 4, text)
    ensures IsDecl(Fn(f, [], body, false), text + "}\n")
    ensures IsDecl(Fn(f, [], body, true), text + "};\n")
  {
    assert "fn " + f + "(" + "" + ") -> int {\n" == "fn " + f + "() -> int {\n";
    FnText(f, [], "", body, text);
  }

  lemma TestDeclText(tag: string, body: seq<Stmt>, text: string)
    requires Opens("@test \"" + tag + "\"() {\n", body, 4, text)
    ensures IsDecl(Test(tag, body, true), text + "};\n")
  {
    forall k ensures PrintDecl(Test(tag, body, true), k) == text + "};\n" + k {
      Brace(k);
      var block := PrintBlock(body, 4, "};\n" + k);
      Brace(block);
      var open := " {\n" + block;
      assert "(" + (")" + open) == "() {\n" + block;
      assert "@" + ("test" + (" " + (("\"" + (tag + "\"")) + ("() {\n" + block)))) == "@test \"" + tag + "\"() {\n" + block;
      assert text + ("};\n" + k) == text + "};\n" + k;
    }
  }
}
