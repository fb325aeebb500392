/**
 * The "hated" user set and the disruptive rewrite applied to its members'
 * messages (`internal/voice/user_transformations.go`). The set is guarded
 * by a reader/writer lock in the source; here each operation is atomic and
 * the set is passed explicitly. The two `rand.Intn` draws are parameters.
 */
module HatedUsers {

  /** The set of user IDs targeted by the rewrite. */
  type HatedSet = set<string>

  /** `IsHatedUser`: a user is hated iff present in the set. */
  predicate IsHated(h: HatedSet, user: string)
  {
    user in h
  }

  /** `AddHatedUser`. */
  function Add(h: HatedSet, user: string): (r: HatedSet)
    ensures IsHated(r, user)
    ensures forall v :: v != user ==> (IsHated(r, v) <==> IsHated(h, v))
  {
    h + {user}
  }

  /** `RemoveHatedUser`; removing an absent user leaves the set as it was. */
  function Remove(h: HatedSet, user: string): (r: HatedSet)
    ensures !IsHated(r, user)
    ensures forall v :: v != user ==> (IsHated(r, v) <==> IsHated(h, v))
    ensures !IsHated(h, user) ==> r == h
  {
    h - {user}
  }

  /** Adding then removing a user who was not hated restores the set. */
  lemma AddRemoveRoundTrip(h: HatedSet, user: string)
    requires !IsHated(h, user)
    ensures Remove(Add(h, user), user) == h
  {
  }

  /** `GetAllHatedUsers`: every member listed exactly once, in whatever order
      the map iteration yields (any order is allowed here). */
  method GetAll(h: HatedSet) returns (users: seq<string>)
    ensures |users| == |h|
    ensures forall u :: u in users <==> u in h
    ensures forall i, j :: 0 <= i < j < |users| ==> users[i] != users[j]
  {
    users := [];
    var rest := h;
    while rest != {}
      invariant rest <= h
      invariant forall u :: u in users <==> u in h - rest
      invariant forall i, j :: 0 <= i < j < |users| ==> users[i] != users[j]
      invariant |users| + |rest| == |h|
      decreases |rest|
    {
      var u :| u in rest;
      users := users + [u];
      rest := rest - {u};
    }
  }

  /** The stock responses, in source order. */
  const Responses: seq<string> := [
      "กลัวความสูงเหรอ เห็นชอบทำตัวต่ำๆ",
      "การศึกษาไม่ได้ทำให้คนฉลาดทางอารมณ์",
      "กินอาหารดีๆ บ้างนะ จะได้มีสารอาหารไปเลี้ยงสมอง",
      "เก็บปากไว้แตกหน้าหนาวเถอะ",
      "เก็บแรงด่า ไว้แผ่เมตตาให้ดีกว่า",
      "เกลียดนักพวกที่ชอบด่าคนอื่นไม่ดูตัวเอง",
      "เกิดปีไก่เหรอ จิกขนาดนี้",
      "คนบางคนก็เหมือนฝุ่น PM 2.5 ดูไร้ค่า และยังเป็นพิษกับคนอื่น",
      "คนหรือกระดาษทราย ดูตัวหยาบๆ",
      "เคยเป็นช่างไฟฟ้าเหรอ เห็นชอบสร้างกระแสเก่งจัง",
      "จะดูถูกกันไม่ว่า แต่ช่วยดูหน้าตัวเองด้วย",
      "ช่วงนี้เที่ยวทิพย์ได้ แต่อย่าเที่ยวยุ่งเรื่องคนอื่นนะ",
      "ชอบปลายปี ชอบหน้าหนาว แต่ไม่ชอบหน้าเธออะ",
      "ดูๆ ก็เหมือนจะครบ 32 ขาดแต่สมองอย่างเดียว",
      "ถ้าชอบกัดก็ไปเกิดเป็นสัตว์นะ",
      "ถึงไม่ได้ขายเพชรพลอย แต่ก็ดูออกว่าใครปลอม",
      "ที่บ้านไม่เคยสอนเหรอว่าอย่าไปอยากได้ของของคนอื่น",
      "ที่เห็นเงียบๆ นี่รอเหยียบนะ ไม่ได้ยอม",
      "เธอก็เหมือนแมงกะพรุน เห็นใสๆ แต่มีพิษ",
      "คนอย่างเธอมันก็เหมือนแบงก์กาโม่อ่ะ ถูกและปลอม",
      "นี่ภาคกลางจ้า ไม่ต้องโชว์เหนือ",
      "บางคำที่คุณพูดอาจไม่ใช่เรื่องตลกสำหรับคนอื่นเสมอไป",
      "ปกตินี่ถ้าหิวน้ำ ต้องกิน หรือต้องมีคนกรวดให้",
      "พร้อมบวกตลอดนะโทรศัพท์มีเครื่องคิดเลข",
      "พูดไปเถอะเรื่องของคนอื่น ตายไปก็พูดไม่ได้อยู่ดี",
      "มารยาททางสังคมไม่มี สงสัยบุพการีไม่ได้สอน",
      "ไม่รู้อะไรอย่าพูด เก็บน้ำลายไว้ย่อยอาหารยังจะมีประโยชน์กว่า",
      "เลิกกันแล้วอย่าเรียกแฟนเก่า อะไรที่ไม่เอา เขาเรียก 'ขยะ'",
      "ช่วงนี้ร้อนเงินเหรอคะ เห็นขยันลดราคาตัวเองจัง",
      "สมองเธอคงเรียบหรู เป็นคุณหนูแต่ไม่มีรอยหยัก",
      "สมองไม่มีไม่เป็นไร แต่มารยาทต้องมีนะคะ",
      "สร้างภาพเก่งขนาดนี้ มีอาชีพเป็นช่างภาพเหรอ",
      "หน้าก็ลอยแล้ว กระทงไม่ต้องลอยก็ได้มั้ง",
      "หน้าตาก็ดูฉลาด แต่พูดจาเหมือนขาดสมอง",
      "หน้าเธอเหมือนสี่เหลี่ยมจัตุรัสเลย ด้านคูณด้าน",
      "หน้านะไม่ใช่แบงก์พัน ที่จะได้เทาแล้วดูแพง",
      "หลอกเก่งจริงๆ ลืมไปหรือเปล่าว่าตัวเองยังไม่ตายนะ",
      "อยากเป็นส่วนหนึ่ง แต่ระวังจะเป็นส่วนเกิน",
      "อยากสูงขึ้นก็กินนมนะ ไม่ใช่เหยียบหัวคนอื่น",
      "อยู่ไหนเหรอความจริงใจ เราหาจากเธอเท่าไรก็หาไม่เจอ",
      "ไม่มีสมอง"
    ]

  /** `ApplyHatedUserTransformations`. `replaceDraw` stands for
      `rand.Intn(100)`, which the source evaluates only for non-empty text;
      `pick` stands for `rand.Intn(len(responses))`. The source replaces the
      text when the draw is below 90, although its comment speaks of 10%. */
  function ApplyHated(text: string, replaceDraw: int, pick: int): (r: string)
    requires 0 <= replaceDraw < 100
    requires 0 <= pick < |Responses|
    ensures text == "" ==> r == Responses[pick]
    ensures text != "" && replaceDraw < 90 ==> r == Responses[pick]
    ensures text != "" && replaceDraw >= 90 ==> r == text
    ensures r == text || r in Responses
  {
    if text == "" || replaceDraw < 90 then Responses[pick] else text
  }

  /** `ApplyUserSpecificTransformations`: only hated senders are rewritten. */
  function ApplyUserSpecific(h: HatedSet, text: string, user: string, replaceDraw: int, pick: int): (r: string)
    requires 0 <= replaceDraw < 100
    requires 0 <= pick < |Responses|
    ensures !IsHated(h, user) ==> r == text
    ensures IsHated(h, user) ==> r == ApplyHated(text, replaceDraw, pick)
    ensures r == text || r in Responses
  {
    if !IsHated(h, user) then text else ApplyHated(text, replaceDraw, pick)
  }

  /** The list has 41 entries, and for a hated sender with empty text the
      result is a stock response whatever the draws are. */
  lemma EmptyTextAlwaysStock(h: HatedSet, user: string, replaceDraw: int, pick: int)
    requires IsHated(h, user)
    requires 0 <= replaceDraw < 100
    requires 0 <= pick < |Responses|
    ensures |Responses| == 41
    ensures ApplyUserSpecific(h, "", user, replaceDraw, pick) in Responses
  {
  }
}
