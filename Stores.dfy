/** The local stores of `utils.py`: the directory of pickled index
    snapshots (one per collection name) and the directory of JSON chat logs
    (one file `<chat_id>.json` per conversation). The file system is a pair
    of maps; the chat directory is keyed by file name, because listing the
    conversations reads file names back. */
module Stores {
  import opened Records
  import opened Strings

  const JSON := ".json"

  /** The file that holds the log of `chatId`. */
  function ChatFile(chatId: string): string
  {
    chatId + JSON
  }

  /** `s.replace('.json', '')`: every occurrence, scanned left to right. */
  function DropJson(s: string): (r: string)
    ensures |r| <= |s|
    decreases |s|
  {
    if |s| < 5 then s
    else if s[..5] == JSON then DropJson(s[5..])
    else [s[0]] + DropJson(s[1..])
  }

  predicate JsonAt(s: string, i: nat)
  {
    i + 5 <= |s| && s[i..i + 5] == JSON
  }

  predicate ContainsJson(s: string)
  {
    exists i: nat | i < |s| :: JsonAt(s, i)
  }

  /** A trailing ".json" never merges with what precedes it, because "."
      occurs in ".json" only at its start. */
  lemma {:induction false} DropJsonAppend(a: string)
    ensures DropJson(a + JSON) == DropJson(a)
    decreases |a|
  {
    var s := a + JSON;
    if 0 < |a| < 5 {
      assert s[..5][|a|] == s[|a|] == '.' && JSON[|a|] != '.';
    }
    if |a| == 0 {
      assert s == JSON && s[..5] == JSON && s[5..] == [];
    } else if s[..5] == JSON {
      assert a[..5] == JSON && s[5..] == a[5..] + JSON;
      DropJsonAppend(a[5..]);
    } else {
      assert s[1..] == a[1..] + JSON;
      DropJsonAppend(a[1..]);
      if |a| >= 5 {
        assert a[..5] == s[..5];
      } else {
        assert a == [a[0]] + a[1..];
      }
    }
  }

  /** Without an occurrence of ".json", replacing does nothing. */
  lemma {:induction false} DropJsonNoMatch(s: string)
    requires !ContainsJson(s)
    ensures DropJson(s) == s
    decreases |s|
  {
    if |s| >= 5 {
      assert !JsonAt(s, 0) && s[0..5] == s[..5];
      assert !ContainsJson(s[1..]) by {
        forall i: nat | JsonAt(s[1..], i) ensures false {
          assert s[1..][i..i + 5] == s[i + 1..i + 6];
          assert JsonAt(s, i + 1);
        }
      }
      DropJsonNoMatch(s[1..]);
      assert s == [s[0]] + s[1..];
    }
  }

  /** With an occurrence of ".json", replacing makes the string shorter. */
  lemma {:induction false} DropJsonShrinks(s: string)
    requires ContainsJson(s)
    ensures |DropJson(s)| < |s|
    decreases |s|
  {
    var i: nat :| i < |s| && JsonAt(s, i);
    assert i + 5 <= |s| && s[i..i + 5] == JSON;
    if s[..5] != JSON {
      assert i != 0 by { assert s[0..5] == s[..5]; }
      assert s[1..][i - 1..i + 4] == s[i..i + 5];
      assert JsonAt(s[1..], i - 1);
      DropJsonShrinks(s[1..]);
    }
  }

  /** A conversation saved under `chatId` is listed back as `chatId`
      exactly when the identifier does not itself contain ".json". */
  lemma ChatFileListedBack(chatId: string)
    ensures DropJson(ChatFile(chatId)) == chatId <==> !ContainsJson(chatId)
  {
    DropJsonAppend(chatId);
    if ContainsJson(chatId) {
      DropJsonShrinks(chatId);
    } else {
      DropJsonNoMatch(chatId);
    }
  }

  /** The identifiers `get_all_chat_ids` derives from a directory listing:
      one per name ending in ".json", in listing order. */
  function ChatIdsOf(listing: seq<string>): (ids: seq<string>)
    ensures |ids| <= |listing|
    ensures forall f :: f in listing && EndsWith(f, JSON) ==> DropJson(f) in ids
    ensures forall j :: 0 <= j < |ids| ==>
              exists f :: f in listing && EndsWith(f, JSON) && ids[j] == DropJson(f)
  {
    if listing == [] then []
    else
      var front, last := listing[..|listing| - 1], listing[|listing| - 1];
      assert forall f :: f in listing <==> f in front || f == last by {
        assert listing == front + [last];
      }
      ChatIdsOf(front) + (if EndsWith(last, JSON) then [DropJson(last)] else [])
  }

  /** Listing two runs of names gives the identifiers of the first followed
      by those of the second; with the one-name case, this fixes the number
      and the order of the identifiers, not only which ones occur. */
  lemma {:induction false} ChatIdsOfAppend(a: seq<string>, b: seq<string>)
    ensures ChatIdsOf(a + b) == ChatIdsOf(a) + ChatIdsOf(b)
    decreases |b|
  {
    if b == [] {
      assert a + b == a;
    } else {
      var b', last := b[..|b| - 1], b[|b| - 1];
      assert (a + b)[..|a + b| - 1] == a + b' && (a + b)[|a + b| - 1] == last;
      ChatIdsOfAppend(a, b');
    }
  }

  /** One name gives one identifier if it ends in ".json", and none otherwise. */
  lemma ChatIdsOfOne(f: string)
    ensures ChatIdsOf([f]) == if EndsWith(f, JSON) then [DropJson(f)] else []
  {
    assert [f][..0] == [];
  }

  /** Every conversation saved in the chat directory under an identifier that
      is free of ".json" and of the path separator appears among the
      identifiers listed from that directory. */
  lemma SavedChatListed(disk: Disk, listing: seq<string>, chatId: string)
    requires disk.IsListing(listing)
    requires ChatFile(chatId) in disk.chatDir
    requires !ContainsJson(chatId) && '/' !in chatId
    ensures chatId in ChatIdsOf(listing)
  {
    ChatFileListedBack(chatId);
    assert EndsWith(ChatFile(chatId), JSON);
    assert '/' !in ChatFile(chatId);
  }

  /** Both directories, as the maps from file to content that they hold. */
  class Disk {
    /** Collection name to saved index (the `<name>.pkl` files). */
    var snapshots: map<string, Index>
    /** File name to chat log (the `<chat_id>.json` files, and any other file). */
    var chatDir: map<string, seq<Turn>>

    constructor (snapshots: map<string, Index>, chatDir: map<string, seq<Turn>>)
      ensures this.snapshots == snapshots && this.chatDir == chatDir
    {
      this.snapshots := snapshots;
      this.chatDir := chatDir;
    }

    /** The log of `chatId` as stored, or the empty log when no file exists. */
    function Log(chatId: string): seq<Turn>
      reads this
    {
      if ChatFile(chatId) in chatDir then chatDir[ChatFile(chatId)] else []
    }

    /** `listing` is an enumeration of the chat directory, as `os.listdir`
        gives it: every file once, in some order. A file name holding the
        path separator lies in another directory and is not listed. */
    predicate IsListing(listing: seq<string>)
      reads this
    {
      (forall f :: f in listing ==> f in chatDir && '/' !in f)
      && (forall f :: f in chatDir && '/' !in f ==> f in listing)
      && forall i, j :: 0 <= i < j < |listing| ==> listing[i] != listing[j]
    }

    /** `save_faiss_index`: the whole snapshot is replaced. */
    method SaveIndex(index: Index, name: string)
      modifies this
      ensures snapshots == old(snapshots)[name := index]
      ensures chatDir == old(chatDir)
    {
      snapshots := snapshots[name := index];
    }

    /** `load_faiss_index`: the saved index, or `None` when none was saved. */
    method LoadIndex(name: string) returns (r: Option<Index>)
      ensures name in snapshots ==> r == Some(snapshots[name])
      ensures name !in snapshots ==> r == None
    {
      if name in snapshots {
        r := Some(snapshots[name]);
      } else {
        r := None;
      }
    }

    /** `save_chat_history`: read the log (empty if missing), append one
        turn, write the whole log back. */
    method SaveChatHistory(chatId: string, user: string, ai: string, timestamp: string)
      modifies this
      ensures chatDir == old(chatDir)[ChatFile(chatId) := old(Log(chatId)) + [Turn(user, ai, timestamp)]]
      ensures snapshots == old(snapshots)
    {
      var chatFile := ChatFile(chatId);
      var history: seq<Turn>;
      if chatFile in chatDir {
        history := chatDir[chatFile];
      } else {
        history := [];
      }
      history := history + [Turn(user, ai, timestamp)];
      chatDir := chatDir[chatFile := history];
    }

    /** `get_chat_history`: the stored log in insertion order, or `[]`. */
    method GetChatHistory(chatId: string) returns (history: seq<Turn>)
      ensures ChatFile(chatId) in chatDir ==> history == chatDir[ChatFile(chatId)]
      ensures ChatFile(chatId) !in chatDir ==> history == []
    {
      var chatFile := ChatFile(chatId);
      if chatFile in chatDir {
        history := chatDir[chatFile];
      } else {
        history := [];
      }
    }

    /** `get_all_chat_ids`: walk the listing and collect, for every name
        ending in ".json", the name with every ".json" removed. */
    method AllChatIds(listing: seq<string>) returns (chatIds: seq<string>)
      requires IsListing(listing)
      ensures chatIds == ChatIdsOf(listing)
      ensures forall f :: f in chatDir && '/' !in f && EndsWith(f, JSON) ==> DropJson(f) in chatIds
    {
      chatIds := [];
      var i := 0;
      while i < |listing|
        invariant 0 <= i <= |listing|
        invariant chatIds == ChatIdsOf(listing[..i])
      {
        assert listing[..i + 1][..i] == listing[..i];
        if EndsWith(listing[i], JSON) {
          chatIds := chatIds + [DropJson(listing[i])];
        }
        i := i + 1;
      }
      assert listing[..|listing|] == listing;
    }

    /** `clear_chat_history`: remove the file if present and report whether
        it was. */
    method ClearChatHistory(chatId: string) returns (removed: bool)
      modifies this
      ensures removed == (ChatFile(chatId) in old(chatDir))
      ensures chatDir == old(chatDir) - {ChatFile(chatId)}
      ensures snapshots == old(snapshots)
    {
      var chatFile := ChatFile(chatId);
      if chatFile in chatDir {
        chatDir := chatDir - {chatFile};
        removed := true;
      } else {
        removed := false;
      }
    }
  }

  /** A save followed by a load of the same name gives back the saved index,
      and a second save overwrites the first. */
  method SaveLoadRoundTrip(disk: Disk, first: Index, second: Index, name: string)
    returns (loaded: Option<Index>)
    modifies disk
    ensures loaded == Some(second)
    ensures disk.snapshots == old(disk.snapshots)[name := second]
    ensures disk.chatDir == old(disk.chatDir)
  {
    disk.SaveIndex(first, name);
    disk.SaveIndex(second, name);
    loaded := disk.LoadIndex(name);
  }
}
