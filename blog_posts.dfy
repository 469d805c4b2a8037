/** JavaScript's `String.prototype.trim`: the whitespace and line
    terminators of section 12.2 and 12.3 of ECMA-262 removed from both
    ends. */
module Trimming {

  /** WhiteSpace (tab, vertical tab, form feed, the byte order mark and
      every space separator) or a LineTerminator. */
  predicate IsJsWhitespace(c: char) {
    || c == '\t' || c == '\U{000B}' || c == '\U{000C}' || c == ' ' || c == '\U{00A0}'
    || c == '\U{FEFF}' || c == '\U{1680}' || ('\U{2000}' <= c <= '\U{200A}')
    || c == '\U{202F}' || c == '\U{205F}' || c == '\U{3000}'
    || c == '\n' || c == '\r' || c == '\U{2028}' || c == '\U{2029}'
  }

  /** Nothing but whitespace (or nothing at all). */
  predicate Blank(s: string) {
    forall i :: 0 <= i < |s| ==> IsJsWhitespace(s[i])
  }

  /** How many whitespace characters s starts with. */
  function LeadingBlanks(s: string): (n: nat)
    ensures n <= |s|
    ensures forall k :: 0 <= k < n ==> IsJsWhitespace(s[k])
    ensures n < |s| ==> !IsJsWhitespace(s[n])
  {
    if s == [] || !IsJsWhitespace(s[0]) then 0 else 1 + LeadingBlanks(s[1..])
  }

  /** How many whitespace characters s ends with. */
  function TrailingBlanks(s: string): (n: nat)
    ensures n <= |s|
    ensures forall k :: |s| - n <= k < |s| ==> IsJsWhitespace(s[k])
    ensures n < |s| ==> !IsJsWhitespace(s[|s| - n - 1])
  {
    if s == [] || !IsJsWhitespace(s[|s| - 1]) then 0 else 1 + TrailingBlanks(s[..|s| - 1])
  }

  /** `s.trim()`: the part of s between its leading and trailing
      whitespace. It is empty exactly when s is blank, and otherwise
      starts and ends with a character that is not whitespace. */
  function Trim(s: string): (r: string)
    ensures LeadingBlanks(s) + |r| <= |s|
    ensures forall k :: 0 <= k < |r| ==> r[k] == s[LeadingBlanks(s) + k]
    ensures r == [] <==> Blank(s)
    ensures r != [] ==> !IsJsWhitespace(r[0]) && !IsJsWhitespace(r[|r| - 1])
    ensures forall k :: LeadingBlanks(s) + |r| <= k < |s| ==> IsJsWhitespace(s[k])
  {
    var a := LeadingBlanks(s);
    var t := s[a..];
    var r := t[..|t| - TrailingBlanks(t)];
    r
  }

  /** Trimming a trimmed string changes nothing. */
  lemma TrimIdempotent(s: string)
    ensures Trim(Trim(s)) == Trim(s)
  {
    var r := Trim(s);
    if r != [] {
      assert LeadingBlanks(r) == 0;
      assert TrailingBlanks(r) == 0;
    }
  }

  /** Whitespace in front of a string does not change its trimmed form. */
  lemma TrimIgnoresLeadingBlank(s: string, c: char)
    requires IsJsWhitespace(c)
    ensures Trim([c] + s) == Trim(s)
  {
    var s1 := [c] + s;
    assert s1[1..] == s;
    assert s1[LeadingBlanks(s1)..] == s[LeadingBlanks(s)..];
  }

  /** Whitespace after a string does not change its trimmed form. */
  lemma TrimIgnoresTrailingBlank(s: string, c: char)
    requires IsJsWhitespace(c)
    ensures Trim(s + [c]) == Trim(s)
  {
    var s2 := s + [c];
    var a := LeadingBlanks(s);
    if a == |s| {
      assert Blank(s2);
    } else {
      LeadingBlanksOfExtension(s, [c]);
      var t := s[a..];
      var t2 := s2[a..];
      assert t2 == t + [c];
      assert t2[..|t2| - 1] == t;
    }
  }

  /** Text appended after a non-blank character does not change how many
      blanks lead. */
  lemma {:induction false} LeadingBlanksOfExtension(s: string, u: string)
    requires LeadingBlanks(s) < |s|
    ensures LeadingBlanks(s + u) == LeadingBlanks(s)
  {
    if IsJsWhitespace(s[0]) {
      assert (s + u)[1..] == s[1..] + u;
      LeadingBlanksOfExtension(s[1..], u);
    }
  }
}

/** The `blog_posts` table behind BackEnd/blogpostsRoutes.js: posts written
    by the administrator with an optional image, listed newest first and
    deleted by id. */
module BlogPosts {
  import opened Wrappers
  import opened Http
  import opened JsValues
  import opened Tables
  import opened Ordering
  import opened Trimming
  import Products

  /** Every post is signed by the administrator. */
  const AUTHOR: string := "Admin"

  /** A stored post: the title and content as they came, untrimmed. */
  datatype BlogPost = BlogPost(title: string, content: string, author: string,
                               image: Option<string>, createdAt: int)

  function CreatedAt(p: Row<BlogPost>): int {
    p.data.createdAt
  }

  /** `v?.trim()`: undefined for undefined or null, the trimmed text for a
      string; any other value has no `trim` method to call, so the call
      throws (None). */
  function TrimmedField(v: JsValue): (r: Option<JsValue>)
    ensures r.None? <==> !Nullish(v) && !v.Str?
    ensures Nullish(v) ==> r == Some(Undefined)
    ensures v.Str? ==> r == Some(Str(Trim(v.s)))
  {
    if Nullish(v) then Some(Undefined)
    else if v.Str? then Some(Str(Trim(v.s)))
    else None
  }

  /** A title or content that passes the check: a string with something
      other than whitespace in it. */
  predicate Filled(v: JsValue) {
    v.Str? && !Blank(v.s)
  }

  /** `!title?.trim() || !content?.trim()`: Some(true) when the post is
      refused, Some(false) when it passes, None when a `trim` call
      throws. Content is not looked at once the title is refused. */
  function Refused(title: JsValue, content: JsValue): (r: Option<bool>)
  {
    match TrimmedField(title)
    case None => None
    case Some(t) =>
      if Falsy(t) then Some(true)
      else match TrimmedField(content)
        case None => None
        case Some(c) => Some(Falsy(c))
  }

  /** The check passes exactly for a filled title and a filled content; it
      refuses a missing or blank title whatever the content, and a missing
      or blank content after a filled title; anything else throws. */
  lemma RefusedCases(title: JsValue, content: JsValue)
    ensures Refused(title, content) == Some(false) <==> Filled(title) && Filled(content)
    ensures Refused(title, content) == Some(true) <==>
              (Nullish(title) || (title.Str? && Blank(title.s)))
              || (Filled(title) && (Nullish(content) || (content.Str? && Blank(content.s))))
    ensures Refused(title, content).None? <==>
              (!Nullish(title) && !title.Str?)
              || (Filled(title) && !Nullish(content) && !content.Str?)
  {
    if title.Str? {
      assert Falsy(Str(Trim(title.s))) <==> Trim(title.s) == [];
    }
    if content.Str? {
      assert Falsy(Str(Trim(content.s))) <==> Trim(content.s) == [];
    }
  }

  /** The row POST /blog-posts inserts; createdAt is the column's default. */
  function NewPost(title: string, content: string, file: Option<string>, now: int): (p: BlogPost)
    ensures p.title == title && p.content == content && p.author == AUTHOR && p.createdAt == now
    ensures p.image.Some? <==> file.Some?
    ensures file.Some? ==> p.image == Some(Products.UploadPath(file.value))
  {
    BlogPost(title, content, AUTHOR,
             if file.Some? then Some(Products.UploadPath(file.value)) else None, now)
  }

  class BlogPostTable {
    var rows: seq<Row<BlogPost>>
    var nextId: int

    ghost predicate Valid()
      reads this
    {
      WellFormed(rows, nextId)
    }

    constructor ()
      ensures Valid() && rows == []
    {
      rows, nextId := [], 1;
    }

    /** GET /blog-posts: every post, newest first. */
    method List(dbFails: bool) returns (r: Reply, posts: seq<Row<BlogPost>>)
      ensures dbFails ==> r == Status(SERVER_ERROR) && posts == []
      ensures !dbFails ==> r == Status(OK) && SortedDesc(posts, CreatedAt)
                           && multiset(posts) == multiset(rows)
    {
      if dbFails {
        return Status(SERVER_ERROR), [];
      }
      posts := SortDesc(rows, CreatedAt);
      r := Status(OK);
    }

    /** DELETE /blog-posts/:id: 200 whether or not the id names a post. */
    method Delete(id: int, dbFails: bool) returns (r: Reply)
      requires Valid()
      modifies this`rows
      ensures Valid()
      ensures dbFails ==> r == Status(SERVER_ERROR) && rows == old(rows)
      ensures !dbFails ==> r == Status(OK) && rows == RemoveId(old(rows), id) && !HasId(rows, id)
    {
      if dbFails {
        return Status(SERVER_ERROR);
      }
      RemoveIdWellFormed(rows, nextId, id);
      rows := RemoveId(rows, id);
      r := Status(OK);
    }

    /** POST /blog-posts with an optional uploaded image (its stored file
        name); answers the new id and, with a file, the image path. */
    method Create(title: JsValue, content: JsValue, file: Option<string>, now: int, dbFails: bool)
      returns (r: Reply, id: Option<int>, image: Option<string>)
      requires Valid()
      modifies this
      ensures Valid()
      ensures r != Status(CREATED) ==> rows == old(rows) && nextId == old(nextId) && id.None? && image.None?
      ensures r == Status(BAD_REQUEST) <==> Refused(title, content) == Some(true)
      ensures r == Status(SERVER_ERROR) <==> Refused(title, content).None? || (Refused(title, content) == Some(false) && dbFails)
      ensures r == Status(CREATED) <==> Filled(title) && Filled(content) && !dbFails
      ensures r == Status(CREATED) ==>
                && id == Some(old(nextId)) && nextId == old(nextId) + 1
                && rows == old(rows) + [Row(old(nextId), NewPost(title.s, content.s, file, now))]
                && (image.Some? <==> file.Some?)
                && (file.Some? ==> image == Some(Products.UploadPath(file.value)))
    {
      RefusedCases(title, content);
      id, image := None, None;
      var refused := Refused(title, content);
      if refused.None? {
        return Status(SERVER_ERROR), id, image;   // `trim` is not a function
      }
      if refused.value {
        return Status(BAD_REQUEST), id, image;
      }
      if dbFails {
        return Status(SERVER_ERROR), id, image;
      }
      var post := NewPost(title.s, content.s, file, now);
      rows := Insert(rows, nextId, post);
      id := Some(nextId);
      nextId := nextId + 1;
      image := post.image;
      r := Status(CREATED);
    }
  }
}
