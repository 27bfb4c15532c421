/** The input schemas, as predicates. Each schema trims its string first and then bounds
    the trimmed length (and, for names, the characters allowed). */
module Validation {
  import opened Options
  import opened Text

  const MaxMessage := 5000
  const MaxName := 100
  const MaxBio := 500
  const MaxHobby := 50
  const MaxHobbies := 20

  /** `messageSchema`: a message is 1 to 5000 characters once trimmed. */
  predicate ValidMessage(content: string) {
    1 <= |Trim(content)| <= MaxMessage
  }

  /** Only letters A-Z, a-z and white space (the class `[a-zA-Z\s]`). */
  predicate LettersAndSpaces(s: string) {
    forall i :: 0 <= i < |s| ==> IsAsciiLetter(s[i]) || IsSpace(s[i])
  }

  /** The `name` field of `profileSchema`. */
  predicate ValidName(name: string) {
    var t := Trim(name);
    1 <= |t| <= MaxName && LettersAndSpaces(t)
  }

  /** The optional `bio` field. */
  predicate ValidBio(bio: Option<string>) {
    bio.None? || |Trim(bio.value)| <= MaxBio
  }

  /** One entry of the `hobbies` array: at most 50 characters trimmed, possibly empty. */
  predicate ValidHobbyEntry(h: string) {
    |Trim(h)| <= MaxHobby
  }

  /** The `hobbies` field: at most 20 entries, each valid. */
  predicate ValidHobbies(hobbies: seq<string>) {
    |hobbies| <= MaxHobbies && forall i :: 0 <= i < |hobbies| ==> ValidHobbyEntry(hobbies[i])
  }

  datatype ProfileInput = ProfileInput(name: string, bio: Option<string>, hobbies: seq<string>)

  predicate ValidProfile(p: ProfileInput) {
    ValidName(p.name) && ValidBio(p.bio) && ValidHobbies(p.hobbies)
  }

  /** `hobbySchema`: a hobby is 1 to 50 characters once trimmed. */
  predicate ValidHobby(h: string) {
    1 <= |Trim(h)| <= MaxHobby
  }

  /** A message is valid exactly when it is not blank and not over the limit. */
  lemma MessageValidIffNotBlank(content: string)
    ensures ValidMessage(content) <==> !IsBlank(content) && |Trim(content)| <= MaxMessage
  {
    TrimEmptyIffBlank(content);
  }

  /** A name is valid exactly when it is not blank, has at most 100 characters between
      its first and last non-blank character, and has nothing but letters and white space. */
  lemma NameValidIff(name: string)
    ensures ValidName(name) <==>
              !IsBlank(name) && |Trim(name)| <= MaxName && LettersAndSpaces(name)
  {
    TrimEmptyIffBlank(name);
    var pre, post := TrimSplit(name);
    PaddedCharset(pre, Trim(name), post);
  }

  /** Surrounding a string with white space does not change whether it is made of
      letters and white space only. */
  lemma PaddedCharset(pre: string, t: string, post: string)
    requires IsBlank(pre) && IsBlank(post)
    ensures LettersAndSpaces(pre + t + post) <==> LettersAndSpaces(t)
  {
    var s := pre + t + post;
    if LettersAndSpaces(t) {
      forall i | 0 <= i < |s| ensures IsAsciiLetter(s[i]) || IsSpace(s[i]) {
        if i < |pre| {
          assert s[i] == pre[i];
        } else if i < |pre| + |t| {
          assert s[i] == t[i - |pre|];
        } else {
          assert s[i] == post[i - |pre| - |t|];
        }
      }
    }
    if LettersAndSpaces(s) {
      forall j | 0 <= j < |t| ensures IsAsciiLetter(t[j]) || IsSpace(t[j]) {
        assert t[j] == s[|pre| + j];
      }
    }
  }

  /** Every valid standalone hobby is also a valid profile entry, but not conversely:
      the blank string passes as an entry and fails as a hobby. */
  lemma HobbyRefinesEntry(h: string)
    ensures ValidHobby(h) ==> ValidHobbyEntry(h)
    ensures ValidHobbyEntry("") && !ValidHobby("")
  {
  }

  /** Trimming the input first never changes any verdict. */
  lemma ValidityIgnoresTrim(s: string)
    ensures ValidMessage(Trim(s)) == ValidMessage(s)
    ensures ValidName(Trim(s)) == ValidName(s)
    ensures ValidBio(Some(Trim(s))) == ValidBio(Some(s))
    ensures ValidHobbyEntry(Trim(s)) == ValidHobbyEntry(s)
    ensures ValidHobby(Trim(s)) == ValidHobby(s)
  {
    TrimIdempotent(s);
  }

  /** A list of valid hobbies that is not too long is a valid `hobbies` field. */
  lemma ValidHobbyList(hobbies: seq<string>)
    requires |hobbies| <= MaxHobbies
    requires forall i :: 0 <= i < |hobbies| ==> ValidHobby(hobbies[i])
    ensures ValidHobbies(hobbies)
  {
  }
}
